/**
 Amounts as text (libraries/chain/asset_object.cpp), with the library routines that they go through.
 */
module AmountText {
  import opened Wrappers

  const MAX_SUPPLY := 1000000000000000000
  const INT64_MAX := 0x7fff_ffff_ffff_ffff
  const MAX_PRECISION := 18

  function Pow10(n: nat): (r: nat)
    ensures r > 0
  {
    if n == 0 then 1 else 10 * Pow10(n - 1)
  }

  predicate IsDigit(c: char) {
    '0' <= c <= '9'
  }

  predicate Digits(s: string) {
    forall c :: c in s ==> IsDigit(c)
  }

  function DigitOf(c: char): nat
    requires IsDigit(c)
  {
    c as int - '0' as int
  }

  function CharOf(d: nat): char
    requires d < 10
  {
    ('0' as int + d) as char
  }

  function Value(s: string): nat
    requires Digits(s)
  {
    if s == "" then 0 else Value(s[..|s| - 1]) * 10 + DigitOf(s[|s| - 1])
  }

  /** `to_string` of a number that is not negative. */
  function Show(n: nat): string {
    if n < 10 then [CharOf(n)] else Show(n / 10) + [CharOf(n % 10)]
  }

  function ShowInt(x: int): string {
    if x < 0 then "-" + Show(-x) else Show(x)
  }

  function Small(x: int): bool {
    -INT64_MAX - 1 <= x <= INT64_MAX
  }

  /** How many digits a text starts with. */
  function DigitRun(s: string): (k: nat)
    ensures k <= |s| && Digits(s[..k]) && (k < |s| ==> !IsDigit(s[k]))
  {
    if s == "" || !IsDigit(s[0]) then 0
    else
      assert s[..1 + DigitRun(s[1..])] == [s[0]] + s[1..][..DigitRun(s[1..])];
      1 + DigitRun(s[1..])
  }

  /** `stoll` on a text of digits, signs and points: a leading number, or an exception. */
  function Stoll(s: string): Option<int> {
    var negative := s != "" && s[0] == '-';
    var body := if negative then s[1..] else s;
    var k := DigitRun(body);
    if k == 0 then None
    else
      var v := if negative then 0 - Value(body[..k]) else Value(body[..k]);
      if Small(v) then Some(v) else None
  }

  datatype Flags = Flags(negative: bool, decimal: bool)

  /** The first loop of `amount_from_string`: digits, at most one sign and at most one point, in any place. */
  function Scan(s: string): Option<Flags> {
    if s == "" then Some(Flags(false, false))
    else
      match Scan(s[..|s| - 1])
      case None => None
      case Some(f) =>
        var c := s[|s| - 1];
        if IsDigit(c) then Some(f)
        else if c == '-' && !f.negative then Some(f.(negative := true))
        else if c == '.' && !f.decimal then Some(f.(decimal := true))
        else None
  }

  /** Digits, and at most one sign and one point, wherever they are. */
  predicate Clean(s: string) {
    && (forall c | c in s :: '0' <= c <= '9' || c == '-' || c == '.')
    && multiset(s)['-'] <= 1 && multiset(s)['.'] <= 1
  }

  /** The loop lets exactly these texts pass, and its flags say what has been seen. */
  lemma {:induction false} ScanPassesClean(s: string)
    ensures Scan(s).Some? <==> Clean(s)
    ensures Scan(s).Some? ==> Scan(s).value == Flags('-' in s, '.' in s)
  {
    if s != "" {
      var n := |s| - 1;
      var before, c := s[..n], s[n];
      assert s == before + [c];
      assert multiset(s) == multiset(before) + multiset{c};
      ScanPassesClean(before);
      assert c in s && forall x | x in before :: x in s;
      assert '-' in before <==> multiset(before)['-'] > 0;
      assert '.' in before <==> multiset(before)['.'] > 0;
    }
  }

  /** Where the first point is; the length of the text if there is none. */
  function FindPoint(s: string): (k: nat)
    ensures k <= |s|
  {
    if s == "" || s[0] == '.' then 0 else 1 + FindPoint(s[1..])
  }

  lemma {:induction false} FirstPoint(s: string, k: nat)
    requires k <= |s| && (k < |s| ==> s[k] == '.') && forall i :: 0 <= i < k ==> s[i] != '.'
    ensures FindPoint(s) == k
  {
    if k > 0 {
      FirstPoint(s[1..], k - 1);
    }
  }

  function Substr(s: string, pos: nat, count: nat): string
    requires pos <= |s|
  {
    if pos + count <= |s| then s[pos..pos + count] else s[pos..]
  }

  function Zeros(n: nat): string {
    if n == 0 then "" else Zeros(n - 1) + "0"
  }

  lemma {:induction false} ZerosLength(n: nat)
    ensures |Zeros(n)| == n && Digits(Zeros(n)) && Value(Zeros(n)) == 0
  {
    if n > 0 {
      ZerosLength(n - 1);
      assert Zeros(n)[..n - 1] == Zeros(n - 1);
    }
  }

  /** The part in front of the point, scaled. */
  function WholePart(lhs: string, precision: nat): Option<int> {
    if lhs == "" then Some(0)
    else
      match Stoll(lhs)
      case None => None
      case Some(v) => if Small(v * Pow10(precision)) then Some(v * Pow10(precision)) else None
  }

  /** The part behind the point, filled up with zeros. */
  function Fraction(rhs: string, precision: nat): Option<int> {
    if |rhs| > precision then None
    else if precision == 0 then Some(0)
    else Stoll(rhs + Zeros(precision - |rhs|))
  }

  function Finish(negative: bool, satoshis: int): Option<int> {
    if !Small(satoshis) || satoshis > MAX_SUPPLY then None
    else if !negative then Some(satoshis)
    else if Small(-satoshis) then Some(-satoshis)
    else None
  }

  /** The two parts of a text, put together. */
  function Combine(negative: bool, lhs: string, rhs: Option<string>, precision: nat): Option<int> {
    if precision > MAX_PRECISION then None
    else
      var whole := WholePart(lhs, precision);
      var fraction := if rhs.None? then Some(0) else Fraction(rhs.value, precision);
      if whole.None? || fraction.None? then None else Finish(negative, whole.value + fraction.value)
  }

  function WholeOf(s: string, f: Flags, point: nat): string {
    Substr(s, if f.negative && s != "" then 1 else 0, if f.decimal then point else |s|)
  }

  function RestOf(s: string, f: Flags, point: nat): Option<string> {
    if f.decimal && point < |s| then Some(s[point + 1..]) else None
  }

  /** What `amount_from_string` computes; None stands for any exception. */
  function FromString(s: string, precision: nat): Option<int> {
    var f := Scan(s);
    if f.None? then None
    else Combine(f.value.negative, WholeOf(s, f.value, FindPoint(s)), RestOf(s, f.value, FindPoint(s)), precision)
  }

  /** Division and remainder of C++, which round towards zero. */
  function Quotient(x: int, y: nat): int
    requires y > 0
  {
    if x < 0 then -(-x / y) else x / y
  }

  function Remainder(x: int, y: nat): int
    requires y > 0
  {
    if x < 0 then -(-x % y) else x % y
  }

  function Print(q: int, d: int, precision: nat): string
    requires 0 - Pow10(precision) < d < Pow10(precision)
  {
    ShowInt(q) + if d == 0 then "" else "." + Show(Pow10(precision) + d)[1..]
  }

  /** What `amount_to_string` computes. */
  function ToString(x: int, precision: nat): string {
    var scaled := Pow10(precision);
    Print(Quotient(x, scaled), Remainder(x, scaled), precision)
  }

  // digits and their values

  lemma {:induction false} ShowValue(n: nat)
    ensures Digits(Show(n)) && Value(Show(n)) == n && |Show(n)| >= 1
  {
    if n >= 10 {
      ShowValue(n / 10);
      assert Show(n)[..|Show(n)| - 1] == Show(n / 10);
    } else {
      assert Show(n)[..0] == "";
    }
  }

  lemma {:induction false} ShowLength(n: nat, k: nat)
    requires Pow10(k) <= n < Pow10(k + 1)
    ensures |Show(n)| == k + 1
  {
    if k > 0 {
      assert Pow10(k - 1) <= n / 10 < Pow10(k);
      ShowLength(n / 10, k - 1);
    }
  }

  lemma {:induction false} ValueBelow(s: string)
    requires Digits(s)
    ensures Value(s) < Pow10(|s|)
  {
    if s != "" {
      var n := |s| - 1;
      assert s[n] in s;
      ValueBelow(s[..n]);
      assert Pow10(n + 1) == 10 * Pow10(n);
    }
  }

  lemma {:induction false} ValueAppend(a: string, b: string)
    requires Digits(a) && Digits(b)
    ensures Digits(a + b) && Value(a + b) == Value(a) * Pow10(|b|) + Value(b)
    decreases |b|
  {
    if b == "" {
      assert a + b == a;
    } else {
      var n := |b| - 1;
      assert (a + b)[..|a + b| - 1] == a + b[..n];
      ValueAppend(a, b[..n]);
      TimesTen(Value(a), Pow10(n));
    }
  }

  lemma {:induction false} TimesTen(v: nat, scale: nat)
    ensures v * (10 * scale) == 10 * (v * scale)
  {
  }

  lemma {:induction false} ValuePadded(s: string, n: nat)
    requires Digits(s)
    ensures Digits(s + Zeros(n)) && Value(s + Zeros(n)) == Value(s) * Pow10(n)
  {
    ZerosLength(n);
    ValueAppend(s, Zeros(n));
  }

  lemma {:induction false} RunOfDigits(a: string, b: string)
    requires Digits(a) && (b == "" || !IsDigit(b[0]))
    ensures DigitRun(a + b) == |a|
  {
    if a == "" {
      assert a + b == b;
    } else {
      assert a[0] in a && (a + b)[1..] == a[1..] + b;
      RunOfDigits(a[1..], b);
    }
  }

  lemma {:induction false} PointAfter(a: string, b: string)
    requires '.' !in a
    ensures FindPoint(a + "." + b) == |a|
  {
    var s := a + "." + b;
    assert s[|a|] == '.';
    forall i | 0 <= i < |a|
      ensures s[i] != '.'
    {
      assert s[i] in a;
    }
    FirstPoint(s, |a|);
  }

  lemma {:induction false} ScanDigits(a: string, b: string)
    requires Digits(b) && Scan(a).Some?
    ensures Scan(a + b) == Scan(a)
    decreases |b|
  {
    if b == "" {
      assert a + b == a;
    } else {
      assert (a + b)[..|a + b| - 1] == a + b[..|b| - 1];
      assert b[|b| - 1] in b;
      ScanDigits(a, b[..|b| - 1]);
    }
  }

  /** A sign or not, as `amount_to_string` prints it. */
  function Sign(negative: bool): string {
    if negative then "-" else ""
  }

  lemma {:induction false} ScanWhole(negative: bool, a: string)
    requires Digits(a)
    ensures Scan(Sign(negative) + a) == Some(Flags(negative, false))
  {
    assert Sign(negative) == "-" ==> Sign(negative)[..0] == "";
    ScanDigits(Sign(negative), a);
  }

  lemma {:induction false} ScanPoint(s: string)
    requires Scan(s).Some? && !Scan(s).value.decimal
    ensures Scan(s + ".") == Some(Scan(s).value.(decimal := true))
  {
    assert (s + ".")[..|s + "."| - 1] == s;
  }

  lemma {:induction false} StollDigits(a: string, b: string)
    requires Digits(a) && a != "" && (b == "" || !IsDigit(b[0]))
    ensures Stoll(a + b) == if Small(Value(a)) then Some(Value(a)) else None
  {
    assert a[0] in a;
    RunOfDigits(a, b);
    assert (a + b)[..|a|] == a;
  }

  lemma {:induction false} WholeOfDigits(a: string, b: string, precision: nat, n: nat)
    requires Digits(a) && a != "" && (b == "" || !IsDigit(b[0])) && n == Value(a) * Pow10(precision)
    ensures WholePart(a + b, precision) == if Small(n) then Some(n) else None
  {
    StollDigits(a, b);
    ScaledUp(Value(a), Pow10(precision));
  }

  lemma {:induction false} ScaledUp(v: nat, scale: nat)
    requires scale > 0
    ensures v <= v * scale
  {
  }

  lemma {:induction false} SignedDigitsHaveNoPoint(negative: bool, a: string)
    requires Digits(a)
    ensures '.' !in Sign(negative) + a
  {
  }

  /** What a text without a point means. */
  lemma {:induction false} WholeText(negative: bool, a: string, precision: nat, n: nat)
    requires Digits(a) && a != "" && precision <= MAX_PRECISION && n == Value(a) * Pow10(precision)
    ensures FromString(Sign(negative) + a, precision)
            == if n <= MAX_SUPPLY then Some(if negative then 0 - n else n) else None
  {
    var s, f := Sign(negative) + a, Flags(negative, false);
    ScanWhole(negative, a);
    assert WholeOf(s, f, FindPoint(s)) == a + "" && RestOf(s, f, FindPoint(s)) == None;
    CombineWhole(negative, a, "", precision, n);
  }

  lemma {:induction false} CombineWhole(negative: bool, a: string, b: string, precision: nat, n: nat)
    requires Digits(a) && a != "" && (b == "" || !IsDigit(b[0])) && precision <= MAX_PRECISION
    requires n == Value(a) * Pow10(precision)
    ensures Combine(negative, a + b, None, precision)
            == if n <= MAX_SUPPLY then Some(if negative then 0 - n else n) else None
  {
    WholeOfDigits(a, b, precision, n);
  }

  lemma {:induction false} CombineBoth(negative: bool, a: string, b: string, rhs: string, precision: nat, whole: nat,
                                       read: nat)
    requires Digits(a) && a != "" && (b == "" || !IsDigit(b[0])) && Digits(rhs) && |rhs| <= precision <= MAX_PRECISION
    requires whole == Value(a) * Pow10(precision) && read == Value(rhs) * Pow10(precision - |rhs|)
    ensures Combine(negative, a + b, Some(rhs), precision)
            == if whole + read <= MAX_SUPPLY then Some(if negative then 0 - (whole + read) else whole + read) else None
  {
    WholeOfDigits(a, b, precision, whole);
    FractionOfDigits(rhs, precision, read);
    CombineValues(negative, a + b, rhs, precision, whole, read);
  }

  lemma {:induction false} CombineValues(negative: bool, lhs: string, rhs: string, precision: nat, w: nat, v: nat)
    requires WholePart(lhs, precision) == (if Small(w) then Some(w) else None)
    requires Fraction(rhs, precision) == Some(v) && v <= MAX_SUPPLY && precision <= MAX_PRECISION
    ensures Combine(negative, lhs, Some(rhs), precision)
            == if w + v <= MAX_SUPPLY then Some(if negative then 0 - (w + v) else w + v) else None
  {
  }

  lemma {:induction false} WholeBeforePoint(negative: bool, a: string, b: string)
    ensures var s := Sign(negative) + a + "." + b;
            |Sign(negative)| <= |s|
            && Substr(s, |Sign(negative)|, |Sign(negative) + a|) == a + (if negative then "." else "")
            && s[|Sign(negative) + a| + 1..] == b
  {
    var s := Sign(negative) + a + "." + b;
    if negative {
      assert s[1..|a| + 2] == a + ".";
    } else {
      assert s[..|a|] == a + "";
    }
  }

  lemma {:induction false} ScanPointText(negative: bool, a: string, b: string)
    requires Digits(a) && Digits(b)
    ensures Scan(Sign(negative) + a + "." + b) == Some(Flags(negative, true))
  {
    var s := Sign(negative) + a;
    ScanWhole(negative, a);
    ScanPoint(s);
    ScanDigits(s + ".", b);
  }

  /** What a text with a point means: the digits behind it count from the left. */
  lemma {:induction false} PointText(negative: bool, a: string, b: string, precision: nat, whole: nat, read: nat)
    requires Digits(a) && a != "" && Digits(b) && |b| <= precision <= MAX_PRECISION
    requires whole == Value(a) * Pow10(precision) && read == Value(b) * Pow10(precision - |b|)
    ensures FromString(Sign(negative) + a + "." + b, precision)
            == if whole + read <= MAX_SUPPLY then Some(if negative then 0 - (whole + read) else whole + read) else None
  {
    var s := Sign(negative) + a;
    ScanPointText(negative, a, b);
    SignedDigitsHaveNoPoint(negative, a);
    PointAfter(s, b);
    WholeBeforePoint(negative, a, b);
    var f := Flags(negative, true);
    assert WholeOf(s + "." + b, f, |s|) == a + (if negative then "." else "") && RestOf(s + "." + b, f, |s|) == Some(b);
    CombineBoth(negative, a, if negative then "." else "", b, precision, whole, read);
  }

  lemma {:induction false} FractionOfDigits(b: string, precision: nat, read: nat)
    requires Digits(b) && |b| <= precision <= MAX_PRECISION && read == Value(b) * Pow10(precision - |b|)
    ensures Fraction(b, precision) == Some(read) && read < Pow10(precision) <= MAX_SUPPLY
  {
    var padded := b + Zeros(precision - |b|);
    Padded(b, precision - |b|, read);
    Pow10Bound(precision);
    if precision > 0 {
      StollDigits(padded, "");
      assert padded + "" == padded;
    }
  }

  lemma {:induction false} Padded(b: string, k: nat, read: nat)
    requires Digits(b) && read == Value(b) * Pow10(k)
    ensures var padded := b + Zeros(k);
            Digits(padded) && |padded| == |b| + k && Value(padded) == read < Pow10(|b| + k)
  {
    ZerosLength(k);
    ValuePadded(b, k);
    ValueBelow(b + Zeros(k));
  }

  lemma {:induction false} Pow10Bound(n: nat)
    requires n <= MAX_PRECISION
    ensures Pow10(n) <= MAX_SUPPLY
  {
    if n < MAX_PRECISION {
      Pow10Grows(n, MAX_PRECISION);
    }
    assert Pow10(9) == 1000000000;
    Pow10Sum(9, 9);
  }

  lemma {:induction false} Pow10Sum(m: nat, n: nat)
    ensures Pow10(m + n) == Pow10(m) * Pow10(n)
  {
    if m > 0 {
      Pow10Sum(m - 1, n);
      assert 10 * (Pow10(m - 1) * Pow10(n)) == (10 * Pow10(m - 1)) * Pow10(n);
    }
  }

  lemma {:induction false} Pow10Grows(m: nat, n: nat)
    requires m < n
    ensures 10 * Pow10(m) <= Pow10(n)
  {
    if m + 1 < n {
      Pow10Grows(m, n - 1);
    }
  }

  // the round trip

  lemma {:induction false} ShowBounds(n: nat)
    requires n > 0
    ensures |Show(n)| >= 1 && Pow10(|Show(n)| - 1) <= n < Pow10(|Show(n)|)
  {
    if n >= 10 {
      ShowBounds(n / 10);
    } else {
      assert Pow10(1) == 10 && Pow10(0) == 1;
    }
  }

  /** What is left of a number when its first digit is erased. */
  lemma {:induction false} FirstDigit(n: nat, k: nat) returns (c: nat)
    requires Pow10(k) <= n < Pow10(k + 1)
    ensures 1 <= c <= 9 && |Show(n)| == k + 1 && Digits(Show(n)[1..])
    ensures n == c * Pow10(k) + Value(Show(n)[1..]) && Value(Show(n)[1..]) < Pow10(k)
  {
    ShowLength(n, k);
    ShowValue(n);
    var head, rest := Show(n)[..1], Show(n)[1..];
    assert Show(n) == head + rest && head[0] in Show(n);
    assert head[..0] == "";
    c := DigitOf(head[0]);
    assert Value(head) == c;
    ValueAppend(head, rest);
    ValueBelow(rest);
  }

  /** The decimals of an amount that is not negative: all places, and their value. */
  lemma {:induction false} Decimals(d: nat, precision: nat)
    requires 0 < d < Pow10(precision)
    ensures |Show(Pow10(precision) + d)| == precision + 1
    ensures var tail := Show(Pow10(precision) + d)[1..]; Digits(tail) && Value(tail) == d
  {
    var c := FirstDigit(Pow10(precision) + d, precision);
    if c >= 2 {
      ScaleLe(2, c, Pow10(precision));
      assert false;
    }
  }

  lemma {:induction false} ScaleLe(x: nat, y: nat, scale: nat)
    requires x <= y
    ensures x * scale <= y * scale
  {
  }

  /** A factor that is one more than a multiple of ten adds no power of ten. */
  lemma {:induction false} NoPowerOfTen(k: nat, t: nat, m: nat, z: int)
    requires t < Pow10(k) && t * (10 * m + 1) == Pow10(k) * z
    ensures t == 0
  {
    if k > 0 {
      var u := Pow10(k - 1) * z - t * m;
      assert t * (10 * m + 1) == 10 * (t * m) + t;
      assert Pow10(k) * z == 10 * (Pow10(k - 1) * z);
      assert t == 10 * u;
      assert t * (10 * m + 1) == 10 * (u * (10 * m + 1));
      NoPowerOfTen(k - 1, u, m, z);
    }
  }

  /** The decimals printed for a negative amount are never the ones it has. */
  lemma {:induction false} WrongDecimals(precision: nat, k: nat, c: nat, t: nat, r: nat)
    requires k < precision && 1 <= c <= 9 && t < Pow10(k) && Pow10(precision) - r == c * Pow10(k) + t
    ensures t * Pow10(precision - k) != r
  {
    Pow10Sum(k, precision - k);
    if t * Pow10(precision - k) == r {
      NoSolution(k, c, t, Pow10(precision - k - 1));
    }
  }

  lemma {:induction false} NoSolution(k: nat, c: nat, t: nat, m: nat)
    requires 1 <= c <= 9 && t < Pow10(k) && m > 0
    ensures Pow10(k) * (10 * m) - t * (10 * m) != c * Pow10(k) + t
  {
    if Pow10(k) * (10 * m) - t * (10 * m) == c * Pow10(k) + t {
      Rearrange(Pow10(k), 10 * m, c, t);
      NoPowerOfTen(k, t, m, 10 * m - c);
      ScaledUp(10 * m - c, Pow10(k));
      assert false;
    }
  }

  lemma {:induction false} Rearrange(w: nat, scale: nat, c: nat, t: nat)
    requires w * scale - t * scale == c * w + t
    ensures t * (scale + 1) == w * (scale - c)
  {
    assert w * (scale - c) == w * scale - w * c;
  }

  /** A whole number, read back. */
  lemma {:induction false} ReadWhole(negative: bool, q: nat, precision: nat, text: string, n: nat)
    requires precision <= MAX_PRECISION && text == Sign(negative) + Show(q) && n == q * Pow10(precision)
    ensures FromString(text, precision) == if n <= MAX_SUPPLY then Some(if negative then 0 - n else n) else None
  {
    ShowValue(q);
    WholeText(negative, Show(q), precision, n);
  }

  /** A whole number with decimals, read back. */
  lemma {:induction false} ReadPoint(negative: bool, q: nat, tail: string, precision: nat, text: string, whole: nat,
                                     read: nat)
    requires precision <= MAX_PRECISION && Digits(tail) && |tail| <= precision
    requires text == Sign(negative) + Show(q) + "." + tail
    requires whole == q * Pow10(precision) && read == Value(tail) * Pow10(precision - |tail|)
    ensures FromString(text, precision)
            == if whole + read <= MAX_SUPPLY then Some(if negative then 0 - (whole + read) else whole + read) else None
  {
    ShowValue(q);
    PointText(negative, Show(q), tail, precision, whole, read);
  }

  lemma {:induction false} PrintedPositive(q: nat, d: nat, precision: nat, text: string, whole: nat)
    requires precision <= MAX_PRECISION && d < Pow10(precision) && text == Print(q, d, precision)
    requires whole == q * Pow10(precision)
    ensures FromString(text, precision) == if whole + d <= MAX_SUPPLY then Some(whole + d) else None
  {
    assert Sign(false) + Show(q) == Show(q);
    if d == 0 {
      ReadWhole(false, q, precision, text, whole);
    } else {
      var tail := AllDecimals(d, precision);
      assert text == Sign(false) + Show(q) + "." + tail;
      ReadPoint(false, q, tail, precision, text, whole, d);
    }
  }

  lemma {:induction false} AllDecimals(d: nat, precision: nat) returns (tail: string)
    requires 0 < d < Pow10(precision)
    ensures |Show(Pow10(precision) + d)| == precision + 1 && tail == Show(Pow10(precision) + d)[1..]
    ensures Digits(tail) && |tail| == precision && d == Value(tail) * Pow10(precision - |tail|)
  {
    Decimals(d, precision);
    tail := Show(Pow10(precision) + d)[1..];
    assert Pow10(0) == 1;
  }

  lemma {:induction false} PrintedNegativeWhole(q: nat, precision: nat, text: string, whole: nat)
    requires precision <= MAX_PRECISION && q > 0 && text == Print(0 - q, 0, precision) && whole == q * Pow10(precision)
    ensures FromString(text, precision) == if whole <= MAX_SUPPLY then Some(0 - whole) else None
  {
    assert text == Sign(true) + Show(q);
    ReadWhole(true, q, precision, text, whole);
  }

  lemma {:induction false} PrintedNegativeBroken(q: nat, d: nat, precision: nat, text: string, whole: nat, x: int)
    requires precision <= MAX_PRECISION && 0 < d < Pow10(precision) && text == Print(0 - q, 0 - d, precision)
    requires whole == q * Pow10(precision) && x == 0 - (whole + d)
    ensures FromString(text, precision) != Some(x)
  {
    var read, tail := WrongTail(d, precision);
    BrokenText(q, d, precision, tail);
    ScaledUp(q, Pow10(precision));
    ReadPoint(q > 0, q, tail, precision, text, whole, read);
  }

  lemma {:induction false} BrokenText(q: nat, d: nat, precision: nat, tail: string)
    requires 0 < d < Pow10(precision) && |Show(Pow10(precision) - d)| >= 1 && tail == Show(Pow10(precision) - d)[1..]
    ensures Print(0 - q, 0 - d, precision) == Sign(q > 0) + Show(q) + "." + tail
  {
  }

  lemma {:induction false} WrongTail(d: nat, precision: nat) returns (read: nat, tail: string)
    requires 0 < d < Pow10(precision)
    ensures var text := Show(Pow10(precision) - d); text != "" && tail == text[1..]
    ensures Digits(tail) && |tail| < precision && read == Value(tail) * Pow10(precision - |tail|) && read != d
  {
    var text := Show(Pow10(precision) - d);
    ShowBounds(Pow10(precision) - d);
    tail := text[1..];
    var k := |tail|;
    if k > precision {
      Pow10Grows(precision, k);
    }
    var c := FirstDigit(Pow10(precision) - d, k);
    WrongDecimals(precision, k, c, Value(tail), d);
    ScaledUp(Value(tail), Pow10(precision - k));
    read := Value(tail) * Pow10(precision - k);
  }

  lemma {:induction false} RoundTripPositive(x: nat, precision: nat)
    requires precision <= MAX_PRECISION
    ensures FromString(ToString(x, precision), precision) == if x <= MAX_SUPPLY then Some(x) else None
  {
    var q, d, whole := Parts(x, Pow10(precision));
    var text := ToString(x, precision);
    PrintedPositive(q, d, precision, text, whole);
  }

  lemma {:induction false} NegativeText(x: int, precision: nat) returns (q: nat, d: nat, whole: nat)
    requires x < 0
    ensures d == -x % Pow10(precision) && whole == q * Pow10(precision) && -x == whole + d && q + d > 0
    ensures ToString(x, precision) == Print(0 - q, 0 - d, precision)
  {
    q, d, whole := Parts(x, Pow10(precision));
  }

  lemma {:induction false} WholeNegative(x: int, precision: nat)
    requires precision <= MAX_PRECISION && x < 0 && -x % Pow10(precision) == 0
    ensures FromString(ToString(x, precision), precision) == if -x <= MAX_SUPPLY then Some(x) else None
  {
    var q, d, whole := NegativeText(x, precision);
    var text := ToString(x, precision);
    PrintedNegativeWhole(q, precision, text, whole);
  }

  lemma {:induction false} BrokenNegative(x: int, precision: nat)
    requires precision <= MAX_PRECISION && x < 0 && -x % Pow10(precision) != 0
    ensures FromString(ToString(x, precision), precision) != Some(x)
  {
    var q, d, whole := NegativeText(x, precision);
    var text := ToString(x, precision);
    PrintedNegativeBroken(q, d, precision, text, whole, x);
  }

  /** The amounts that survive: from zero to the largest supply, and below zero whole numbers of units. */
  predicate Survives(x: int, precision: nat) {
    if x >= 0 then x <= MAX_SUPPLY else -x <= MAX_SUPPLY && -x % Pow10(precision) == 0
  }

  /** Text gives back exactly the amounts that survive. */
  lemma {:induction false} RoundTripExactly(x: int, precision: nat)
    requires precision <= MAX_PRECISION
    ensures FromString(ToString(x, precision), precision) == Some(x) <==> Survives(x, precision)
  {
    if x >= 0 {
      RoundTripPositive(x, precision);
    } else if -x % Pow10(precision) == 0 {
      WholeNegative(x, precision);
    } else {
      BrokenNegative(x, precision);
    }
  }

  /** Division and remainder that round towards zero treat the two signs alike. */
  lemma {:induction false} Parts(x: int, scaled: nat) returns (q: nat, d: nat, whole: nat)
    requires scaled > 0
    ensures d < scaled && whole == q * scaled && (if x < 0 then -x else x) == whole + d && (x != 0 ==> q + d > 0)
    ensures d == (if x < 0 then -x else x) % scaled
    ensures Quotient(x, scaled) == (if x < 0 then 0 - q else q) && Remainder(x, scaled) == if x < 0 then 0 - d else d
  {
    var n: nat := if x < 0 then -x else x;
    q, d := Euclid(n, scaled);
    whole := n - d;
    assert Quotient(x, scaled) == if x < 0 then 0 - q else q;
  }

  lemma {:induction false} Euclid(n: nat, scaled: nat) returns (q: nat, d: nat)
    requires scaled > 0
    ensures q == n / scaled && d == n % scaled < scaled && n == q * scaled + d && (n > 0 ==> q + d > 0)
  {
    q, d := n / scaled, n % scaled;
    if q == 0 {
      assert q * scaled == 0;
    }
  }

  // the loops

  /** `amount_to_string`. */
  method AmountToString(amount: int, precision: nat) returns (result: string)
    requires precision <= MAX_PRECISION
    ensures result == ToString(amount, precision)
  {
    var scaled := 1;
    for i := 0 to precision
      invariant scaled == Pow10(i)
    {
      scaled := scaled * 10;
    }
    result := ShowInt(Quotient(amount, scaled));
    var decimals := Remainder(amount, scaled);
    if decimals != 0 {
      DecimalsShow(decimals, scaled);
      result := result + "." + ShowInt(scaled + decimals)[1..];
    }
  }

  lemma {:induction false} DecimalsShow(decimals: int, scaled: nat)
    requires 0 - scaled < decimals
    ensures |ShowInt(scaled + decimals)| >= 1 && ShowInt(scaled + decimals) == Show(scaled + decimals)
  {
    ShowValue(scaled + decimals);
  }

  /** The loop over the characters of `amount_from_string`. */
  method ScanText(text: string) returns (r: Option<Flags>)
    ensures r == Scan(text)
  {
    var f := Flags(false, false);
    for i := 0 to |text|
      invariant Scan(text[..i]) == Some(f)
    {
      assert text[..i + 1][..i] == text[..i];
      var c := text[i];
      if IsDigit(c) {
      } else if c == '-' && !f.negative {
        f := f.(negative := true);
      } else if c == '.' && !f.decimal {
        f := f.(decimal := true);
      } else {
        ScanFails(text, i + 1);
        return None;
      }
    }
    assert text[..|text|] == text;
    return Some(f);
  }

  /** The part of `amount_from_string` behind the point, with its padding loop. */
  method ReadFraction(typed: string, precision: nat, scaled: nat) returns (r: Option<int>)
    requires scaled == Pow10(precision)
    ensures r == Fraction(typed, precision)
  {
    PrecisionFromScale(precision);
    var most := |Show(scaled)[1..]|;
    var rhs := typed;
    if |rhs| > most {
      return None;
    }
    while |rhs| < most
      invariant |typed| <= |rhs| <= most && rhs == typed + Zeros(|rhs| - |typed|)
    {
      rhs := rhs + "0";
    }
    if rhs == "" {
      return Some(0);
    }
    return Stoll(rhs);
  }

  /** The arithmetic of `amount_from_string`, once the text is cut in two. */
  method CombineParts(negative: bool, lhs: string, rhs: Option<string>, precision: nat) returns (r: Option<int>)
    ensures r == Combine(negative, lhs, rhs, precision)
  {
    if precision > MAX_PRECISION {
      return None;
    }
    var satoshis := WholePart(lhs, precision);
    var fraction := Some(0);
    if rhs.Some? {
      fraction := ReadFraction(rhs.value, precision, Pow10(precision));
    }
    if satoshis.None? || fraction.None? {
      return None;
    }
    return Finish(negative, satoshis.value + fraction.value);
  }

  /** `amount_from_string`; None stands for any exception. */
  method AmountFromString(text: string, precision: nat) returns (r: Option<int>)
    ensures r == FromString(text, precision)
  {
    var flags := ScanText(text);
    if flags.None? {
      return None;
    }
    var point := FindPoint(text);
    r := CombineParts(flags.value.negative, WholeOf(text, flags.value, point), RestOf(text, flags.value, point),
                      precision);
  }

  lemma {:induction false} ScanFails(s: string, k: nat)
    requires k <= |s| && Scan(s[..k]) == None
    ensures Scan(s) == None
    decreases |s| - k
  {
    if k < |s| {
      assert s[..k + 1][..k] == s[..k];
      ScanFails(s, k + 1);
    } else {
      assert s[..k] == s;
    }
  }

  /** The number of places is read off the printed scale. */
  lemma {:induction false} PrecisionFromScale(precision: nat)
    ensures |Show(Pow10(precision))| == precision + 1
  {
    assert Pow10(precision + 1) == 10 * Pow10(precision);
    ShowLength(Pow10(precision), precision);
  }

  /** Minus one and a half, printed with one decimal place, is read as minus one. */
  lemma {:induction false} NegativeDecimalsAreLost()
    ensures ToString(-15, 1) == "-1." && FromString("-1.", 1) == Some(-10)
  {
    assert Pow10(1) == 10;
    var q, d, whole := Parts(-15, 10);
    assert Show(1) == "1" && Show(5) == "5";
    assert "1"[..0] == "" && Value("1") == 1;
    PointText(true, "1", "", 1, 10, 0);
    assert Sign(true) + "1" + "." + "" == "-1.";
  }

  lemma {:induction false} NoLeadingZero(n: nat)
    ensures |Show(n)| > 1 ==> Show(n)[0] != '0'
  {
    if n >= 100 {
      NoLeadingZero(n / 10);
      ShowBounds(n / 10);
    } else if n >= 10 {
      assert Show(n) == [CharOf(n / 10)] + [CharOf(n % 10)];
    }
  }

  /**
   The text of an amount that is not negative: the whole units without leading zeros, and, unless there
   are no decimals, a point and all places of them.
   */
  lemma {:induction false} PrintedAs(x: nat, precision: nat) returns (whole: string, tail: string)
    ensures ToString(x, precision) == whole + if tail == "" then "" else "." + tail
    ensures Digits(whole) && whole != "" && Value(whole) == x / Pow10(precision) && (|whole| > 1 ==> whole[0] != '0')
    ensures Digits(tail) && Value(tail) == x % Pow10(precision)
    ensures if x % Pow10(precision) == 0 then tail == "" else |tail| == precision
  {
    var q, d, scaled := Parts(x, Pow10(precision));
    whole, tail := PrintedParts(q, d, precision);
    assert q == x / Pow10(precision);
  }

  lemma {:induction false} PrintedParts(q: nat, d: nat, precision: nat) returns (whole: string, tail: string)
    requires d < Pow10(precision)
    ensures Print(q, d, precision) == whole + if tail == "" then "" else "." + tail
    ensures Digits(whole) && whole != "" && Value(whole) == q && (|whole| > 1 ==> whole[0] != '0')
    ensures Digits(tail) && Value(tail) == d && if d == 0 then tail == "" else |tail| == precision
  {
    whole, tail := Show(q), "";
    ShowValue(q);
    NoLeadingZero(q);
    if d > 0 {
      tail := AllDecimals(d, precision);
      Decimals(d, precision);
      assert Pow10(precision) > 1;
      assert precision > 0;
    }
  }

  /** Whatever has another character, a second sign or a second point is not read at all. */
  lemma {:induction false} UncleanIsRejected(s: string, precision: nat)
    requires !Clean(s)
    ensures FromString(s, precision) == None
  {
    ScanPassesClean(s);
  }

  /**
   A sign after the first digit is let through. It cuts that digit off and counts twice: once for the
   digits behind it and once for the whole, so that the text means what those digits mean without it; and
   the check against the largest supply sees the negative amount, so that it does not apply.
   */
  lemma {:induction false} SignBehindDigit(c: char, a: string, precision: nat, n: nat)
    requires IsDigit(c) && Digits(a) && a != "" && precision <= MAX_PRECISION && n == Value(a) * Pow10(precision)
    ensures FromString([c] + "-" + a, precision) == if n <= INT64_MAX then Some(n) else None
  {
    var s := [c] + "-" + a;
    ScanBehindDigit(c, a);
    assert Substr(s, 1, |s|) == "-" + a;
    assert RestOf(s, Flags(true, false), FindPoint(s)) == None;
    NegativeWhole(a, precision, n);
    CombineNegative("-" + a, precision, n);
  }

  lemma {:induction false} ScanBehindDigit(c: char, a: string)
    requires IsDigit(c) && Digits(a)
    ensures Scan([c] + "-" + a) == Some(Flags(true, false))
  {
    assert [c][..0] == "" && Scan([c]) == Some(Flags(false, false));
    assert ([c] + "-")[..1] == [c] && Scan([c] + "-") == Some(Flags(true, false));
    ScanDigits([c] + "-", a);
  }

  lemma {:induction false} NegativeWhole(a: string, precision: nat, n: nat)
    requires Digits(a) && a != "" && n == Value(a) * Pow10(precision)
    ensures WholePart("-" + a, precision) == if n <= INT64_MAX + 1 then Some(0 - n) else None
  {
    RunOfDigits(a, "");
    assert a + "" == a && ("-" + a)[1..] == a && a[..|a|] == a;
    ScaledUp(Value(a), Pow10(precision));
    assert (0 - Value(a)) * Pow10(precision) == 0 - n;
  }

  lemma {:induction false} CombineNegative(lhs: string, precision: nat, n: nat)
    requires WholePart(lhs, precision) == (if n <= INT64_MAX + 1 then Some(0 - n) else None)
    requires precision <= MAX_PRECISION
    ensures Combine(true, lhs, None, precision) == if n <= INT64_MAX then Some(n) else None
  {
  }
}
