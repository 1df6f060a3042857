/**
 * The part of the PHP engine the helpers lean on: its values, `empty()`, the normalisation
 * of string array keys, the casts `(string)` and `(array)`, `intval`, `is_numeric`,
 * `filter_var` with FILTER_VALIDATE_INT and FILTER_VALIDATE_BOOLEAN, `strlen`, and
 * `explode`/`implode` with a one-character separator. A `Value.Int` is an unbounded
 * integer standing for a PHP int; the numbers the engine functions read from strings lie
 * in the range of a 64-bit build, `IntMin` to `IntMax`.
 */
module Php {
  import opened Wrappers

  const IntMax: int := 0x7FFF_FFFF_FFFF_FFFF
  const IntMin: int := -0x8000_0000_0000_0000

  /** An array key after PHP's key normalisation. */
  datatype Key = IntKey(n: int) | StrKey(s: string)

  /** A PHP value. Floats are not modelled. An object carries its class, the classes and
      interfaces it extends or implements, and its public properties. */
  datatype Value =
    | Null
    | Bool(b: bool)
    | Int(i: int)
    | Str(s: string)
    | Arr(entries: seq<Entry>)
    | Obj(cls: string, ancestors: set<string>, props: seq<Entry>)

  /** One `key => value` pair of an ordered PHP array. */
  datatype Entry = Entry(key: Key, val: Value)

  predicate IsScalar(v: Value) {
    v.Bool? || v.Int? || v.Str?
  }

  /** PHP's `empty()`: null, false, 0, "", "0" and the empty array; never an object. */
  predicate Empty(v: Value) {
    match v
    case Null => true
    case Bool(b) => !b
    case Int(i) => i == 0
    case Str(s) => s == "" || s == "0"
    case Arr(es) => es == []
    case Obj(_, _, _) => false
  }

  /** What `if ($v)` accepts. */
  predicate Truthy(v: Value) {
    !Empty(v)
  }

  /** `$v instanceof $cls`. */
  predicate InstanceOf(v: Value, cls: string) {
    v.Obj? && (v.cls == cls || cls in v.ancestors)
  }

  /** What `foreach` walks: the entries of an array or the public properties of an object. */
  function Members(v: Value): seq<Entry> {
    match v
    case Arr(es) => es
    case Obj(_, _, ps) => ps
    case _ => []
  }

  /** `$object->{$name}`: the public property, or null when it is missing or `$object`
      is not an object. */
  function Property(obj: Value, name: string): Value {
    if obj.Obj? then
      match Find(obj.props, StrKey(name))
      case Some(v) => v
      case None => Null
    else Null
  }

  /** `i` is the position of the first entry with key `k`. */
  predicate FirstAt(es: seq<Entry>, k: Key, i: int) {
    0 <= i < |es| && es[i].key == k && forall j :: 0 <= j < i ==> es[j].key != k
  }

  /** The value stored under key `k`, if the key is present. */
  function Find(es: seq<Entry>, k: Key): (r: Option<Value>)
    ensures r.None? <==> forall i :: 0 <= i < |es| ==> es[i].key != k
    ensures r.Some? ==> exists i :: FirstAt(es, k, i) && es[i].val == r.value
  {
    if es == [] then None
    else if es[0].key == k then
      assert FirstAt(es, k, 0);
      Some(es[0].val)
    else
      var r := Find(es[1..], k);
      assert forall i :: 0 <= i < |es| - 1 ==> es[1..][i] == es[i + 1];
      if r.Some? then
        var i :| FirstAt(es[1..], k, i) && es[1..][i].val == r.value;
        assert FirstAt(es, k, i + 1);
        r
      else r
  }

  // ---------------------------------------------------------------------------
  // Decimal numerals

  predicate IsDigit(c: char) {
    '0' <= c <= '9'
  }

  function CharValue(c: char): nat
    requires IsDigit(c)
  {
    c as int - '0' as int
  }

  function DigitChar(d: nat): (c: char)
    requires d < 10
    ensures IsDigit(c) && CharValue(c) == d
  {
    ('0' as int + d) as char
  }

  predicate AllDigits(s: string) {
    forall i :: 0 <= i < |s| ==> IsDigit(s[i])
  }

  /** Decimal digits without a superfluous leading zero. */
  predicate CanonicalDigits(s: string) {
    |s| >= 1 && AllDigits(s) && (s[0] == '0' ==> |s| == 1)
  }

  /** The number a run of decimal digits spells (0 for the empty run). */
  function DigitsValue(s: string): nat
    requires AllDigits(s)
  {
    if s == [] then 0 else DigitsValue(s[..|s| - 1]) * 10 + CharValue(s[|s| - 1])
  }

  /** The decimal digits of `n`. */
  function Digits(n: nat): (s: string)
    ensures CanonicalDigits(s)
    ensures s[0] == '0' <==> n == 0
  {
    if n < 10 then [DigitChar(n)] else Digits(n / 10) + [DigitChar(n % 10)]
  }

  lemma {:induction false} DigitsValueOfDigits(n: nat)
    ensures DigitsValue(Digits(n)) == n
  {
    if n >= 10 {
      DigitsValueOfDigits(n / 10);
      var s := Digits(n);
      assert s[..|s| - 1] == Digits(n / 10);
    }
  }

  lemma {:induction false} LeadingNonZeroPositive(s: string)
    requires |s| >= 1 && AllDigits(s) && s[0] != '0'
    ensures DigitsValue(s) >= 1
  {
    if |s| > 1 {
      LeadingNonZeroPositive(s[..|s| - 1]);
    }
  }

  /** Canonical digits are exactly what `Digits` prints for their value. */
  lemma {:induction false} DigitsOfDigitsValue(s: string)
    requires CanonicalDigits(s)
    ensures Digits(DigitsValue(s)) == s
  {
    if |s| > 1 {
      var p := s[..|s| - 1];
      LeadingNonZeroPositive(p);
      DigitsOfDigitsValue(p);
      var n := DigitsValue(s);
      assert n / 10 == DigitsValue(p) && n % 10 == CharValue(s[|s| - 1]);
      assert s == p + [s[|s| - 1]];
    }
  }

  /** The decimal notation PHP prints for an integer. */
  function IntToDecimal(n: int): string {
    if n < 0 then "-" + Digits(-n) else Digits(n)
  }

  /** "0", or an optional '-' followed by digits without a leading zero ("-0" excluded). */
  predicate IsCanonicalInt(s: string) {
    CanonicalDigits(s) || (|s| >= 2 && s[0] == '-' && CanonicalDigits(s[1..]) && s[1] != '0')
  }

  function CanonicalValue(s: string): int
    requires IsCanonicalInt(s)
  {
    if s[0] == '-' then -(DigitsValue(s[1..]) as int) else DigitsValue(s)
  }

  /** The key a string becomes when used as an array key: a string that spells an
      in-range integer in canonical form becomes that integer, every other string stays. */
  function ArrayKey(s: string): (k: Key)
    ensures k.IntKey? ==> IntMin <= k.n <= IntMax && IntToDecimal(k.n) == s
    ensures k.StrKey? ==> k.s == s
  {
    if IsCanonicalInt(s) && IntMin <= CanonicalValue(s) <= IntMax then
      if s[0] == '-' then
        DigitsOfDigitsValue(s[1..]);
        assert s == "-" + s[1..];
        IntKey(CanonicalValue(s))
      else
        DigitsOfDigitsValue(s);
        IntKey(CanonicalValue(s))
    else StrKey(s)
  }

  /** Every in-range integer written in decimal is read back as that integer key. */
  lemma ArrayKeyOfDecimal(n: int)
    requires IntMin <= n <= IntMax
    ensures ArrayKey(IntToDecimal(n)) == IntKey(n)
  {
    var s := IntToDecimal(n);
    if n < 0 {
      DigitsValueOfDigits(-n);
      assert s[1..] == Digits(-n);
    } else {
      DigitsValueOfDigits(n);
    }
  }

  /** The key a scalar becomes when used as an array offset: booleans become 0 and 1. */
  function OffsetKey(v: Value): (k: Key)
    requires IsScalar(v)
  {
    match v
    case Bool(b) => IntKey(if b then 1 else 0)
    case Int(i) => IntKey(i)
    case Str(s) => ArrayKey(s)
  }

  // ---------------------------------------------------------------------------
  // Whitespace and digit runs

  /** The characters `filter_var` trims. */
  const FilterSpace: set<char> := {' ', '\t', '\r', '\n', '\U{B}'}

  /** The characters a numeric string may start or end with. */
  const NumericSpace: set<char> := {' ', '\t', '\n', '\r', '\U{B}', '\U{C}'}

  function TrimLeft(s: string, ws: set<char>): (r: string)
    ensures |r| <= |s| && r == s[|s| - |r|..]
    ensures r == [] || r[0] !in ws
    ensures forall i :: 0 <= i < |s| - |r| ==> s[i] in ws
  {
    if s != [] && s[0] in ws then TrimLeft(s[1..], ws) else s
  }

  function TrimRight(s: string, ws: set<char>): (r: string)
    ensures |r| <= |s| && r == s[..|r|]
    ensures r == [] || r[|r| - 1] !in ws
    ensures forall i :: |r| <= i < |s| ==> s[i] in ws
  {
    if s != [] && s[|s| - 1] in ws then TrimRight(s[..|s| - 1], ws) else s
  }

  function Trim(s: string, ws: set<char>): string {
    TrimRight(TrimLeft(s, ws), ws)
  }

  /** The end of the run of digits starting at `i`. */
  function DigitRun(s: string, i: nat): (j: nat)
    requires i <= |s|
    ensures i <= j <= |s|
    ensures AllDigits(s[i..j])
    ensures j == |s| || !IsDigit(s[j])
    decreases |s| - i
  {
    if i < |s| && IsDigit(s[i]) then DigitRun(s, i + 1) else i
  }

  /** The end of the run of `ws` characters starting at `i`. */
  function SpaceRun(s: string, i: nat, ws: set<char>): (j: nat)
    requires i <= |s|
    ensures i <= j <= |s|
    decreases |s| - i
  {
    if i < |s| && s[i] in ws then SpaceRun(s, i + 1, ws) else i
  }

  // ---------------------------------------------------------------------------
  // Conversions

  /** `is_numeric`: an integer, or a string made of optional surrounding whitespace, an
      optional sign, a decimal mantissa with at least one digit and an optional exponent. */
  predicate IsNumeric(v: Value) {
    match v
    case Int(_) => true
    case Str(s) => IsNumericString(s)
    case _ => false
  }

  predicate IsNumericString(s: string) {
    var a := SpaceRun(s, 0, NumericSpace);
    var b := if a < |s| && (s[a] == '+' || s[a] == '-') then a + 1 else a;
    var c := DigitRun(s, b);
    var d := if c < |s| && s[c] == '.' then DigitRun(s, c + 1) else c;
    var hasMantissa := c > b || d > c + 1;
    var e := if d < |s| && (s[d] == 'e' || s[d] == 'E') then ExponentEnd(s, d) else d;
    hasMantissa && SpaceRun(s, e, NumericSpace) == |s|
  }

  /** Where an exponent starting with the 'e' at `d` ends; `d` itself if it has no digits. */
  function ExponentEnd(s: string, d: nat): (e: nat)
    requires d < |s|
    ensures d <= e <= |s|
  {
    var f := if d + 1 < |s| && (s[d + 1] == '+' || s[d + 1] == '-') then d + 2 else d + 1;
    var g := DigitRun(s, f);
    if g > f then g else d
  }

  /** PHP saturates a numeral whose value lies outside the integer range. */
  function Clamp(n: int): (r: int)
    ensures IntMin <= r <= IntMax
    ensures IntMin <= n <= IntMax ==> r == n
    ensures n > IntMax ==> r == IntMax
    ensures n < IntMin ==> r == IntMin
  {
    if n < IntMin then IntMin else if n > IntMax then IntMax else n
  }

  function Pow10(p: nat): (r: nat)
    ensures r >= 1
  {
    if p == 0 then 1 else 10 * Pow10(p - 1)
  }

  /** The smallest magnitude that the engine's string-to-double conversion rounds to
      infinity: (2^54 - 1) * 2^970, half-way between the largest double and 2^1024. */
  const DoubleOverflow: nat := 0xffff_ffff_ffff_fc00_0000_0000_0000_0000_0000_0000_0000_0000_0000_0000_0000_0000_0000_0000_0000_0000_0000_0000_0000_0000_0000_0000_0000_0000_0000_0000_0000_0000_0000_0000_0000_0000_0000_0000_0000_0000_0000_0000_0000_0000_0000_0000_0000_0000_0000_0000_0000_0000_0000_0000_0000_0000_0000_0000_0000_0000_0000_0000_0000_0000

  /** The integer part of the number whose decimal digits are `ds`, scaled by 10^p: the
      digits followed by p zeros, or with the last -p digits dropped. */
  function Truncated(ds: string, p: int): (t: nat)
    requires AllDigits(ds)
  {
    if p >= 0 then
      var m, q := DigitsValue(ds), Pow10(p);
      assert m * q >= 0 by { ProductOfNaturals(m, q); }
      m * q
    else if -p >= |ds| then 0
    else DigitsValue(ds[..|ds| + p])
  }

  lemma ProductOfNaturals(a: nat, b: nat)
    ensures a * b >= 0
  {
  }

  /** What a numeral with sign `neg`, digits `ds` and scale 10^p becomes as an integer: its
      integer part, saturated to the integer range, or 0 when it is too large for a double
      (the conversion of an infinite double). */
  function NumeralToInt(neg: bool, ds: string, p: int): (n: int)
    requires AllDigits(ds)
    ensures IntMin <= n <= IntMax
  {
    var t := Truncated(ds, p);
    if t >= DoubleOverflow then 0 else Clamp(if neg then -(t as int) else t)
  }

  /** The value of the exponent whose 'e' is at `d`: its optional sign and digits, or 0 when
      no digit follows (the 'e' then ends the numeral). */
  function ExponentValue(s: string, d: nat): int
    requires d < |s|
  {
    var f := if d + 1 < |s| && (s[d + 1] == '+' || s[d + 1] == '-') then d + 2 else d + 1;
    var g := DigitRun(s, f);
    if g == f then 0
    else
      var x: int := DigitsValue(s[f..g]);
      if s[d + 1] == '-' then -x else x
  }

  /** A numeral as read: its sign, its digits, and the power of ten they are scaled by. */
  datatype Numeral = Numeral(neg: bool, digits: string, scale: int)

  /** The longest numeric prefix of a string after leading whitespace: an optional sign,
      digits, an optional '.' and digits, and an optional exponent. */
  function ReadNumeral(s: string): (r: Numeral)
    ensures AllDigits(r.digits)
  {
    var a := SpaceRun(s, 0, NumericSpace);
    var neg := a < |s| && s[a] == '-';
    var b := if a < |s| && (s[a] == '+' || s[a] == '-') then a + 1 else a;
    var c := DigitRun(s, b);
    var d := if c < |s| && s[c] == '.' then DigitRun(s, c + 1) else c;
    var fraction := if d > c then s[c + 1..d] else "";
    var exponent := if d < |s| && (s[d] == 'e' || s[d] == 'E') then ExponentValue(s, d) else 0;
    Numeral(neg, s[b..c] + fraction, exponent - |fraction|)
  }

  /** `intval` of a string: its numeric prefix converted to an integer; 0 when it has no
      digit. */
  function LeadingInt(s: string): (n: int)
    ensures IntMin <= n <= IntMax
  {
    var r := ReadNumeral(s);
    NumeralToInt(r.neg, r.digits, r.scale)
  }

  /** `intval($v)`. */
  function IntVal(v: Value): (n: int)
    ensures v.Int? ==> n == v.i
    ensures v.Str? ==> IntMin <= n <= IntMax
    ensures Empty(v) && !v.Str? ==> n == 0
  {
    match v
    case Null => 0
    case Bool(b) => if b then 1 else 0
    case Int(i) => i
    case Str(s) => LeadingInt(s)
    case Arr(es) => if es == [] then 0 else 1
    case Obj(_, _, _) => 1
  }

  /** `intval` reads every in-range decimal numeral back as its integer. */
  lemma IntValOfDecimal(n: int)
    requires IntMin <= n <= IntMax
    ensures IntVal(Str(IntToDecimal(n))) == n
  {
    var s := IntToDecimal(n);
    var m: nat := if n < 0 then -n else n;
    var b := if n < 0 then 1 else 0;
    assert s[b..] == Digits(m);
    assert SpaceRun(s, 0, NumericSpace) == 0;
    DigitRunToEnd(s, b);
    assert s[b..|s|] + "" == Digits(m);
    assert ReadNumeral(s) == Numeral(n < 0, Digits(m), 0);
    DigitsValueOfDigits(m);
    assert Truncated(Digits(m), 0) == m;
  }

  /** A numeral in scientific notation, digits `m`, 'e', digits `p`, followed by anything
      that does not continue the exponent, is read as m * 10^p: exactly while that fits an
      integer, saturated above it, and as 0 once it is too large for a double. */
  lemma IntValOfScientific(m: nat, p: nat, rest: string)
    requires rest == [] || !IsDigit(rest[0])
    ensures var v := m * Pow10(p); var r := IntVal(Str(Digits(m) + "e" + Digits(p) + rest));
      (v <= IntMax ==> r == v) &&
      (IntMax < v < DoubleOverflow ==> r == IntMax) &&
      (DoubleOverflow <= v ==> r == 0)
  {
    var s := Digits(m) + "e" + Digits(p) + rest;
    var c, g := |Digits(m)|, |Digits(m)| + 1 + |Digits(p)|;
    ScientificParts(m, p, rest);
    ReadScientific(s, c, g);
    DigitsValueOfDigits(m);
    DigitsValueOfDigits(p);
    var v := Truncated(Digits(m), p);
    assert v == m * Pow10(p);
    assert IntMax < DoubleOverflow;
  }

  /** A numeral in scientific notation passes `is_numeric` exactly when nothing but
      whitespace follows it. */
  lemma ScientificNumeric(m: nat, p: nat, rest: string)
    requires rest == [] || !IsDigit(rest[0])
    ensures IsNumericString(Digits(m) + "e" + Digits(p) + rest) <==>
      forall i :: 0 <= i < |rest| ==> rest[i] in NumericSpace
  {
    var s := Digits(m) + "e" + Digits(p) + rest;
    var c, g := |Digits(m)|, |Digits(m)| + 1 + |Digits(p)|;
    ScientificParts(m, p, rest);
    ReadScientific(s, c, g);
    SpaceRunToEnd(s, g, NumericSpace);
    assert forall i :: 0 <= i < |rest| ==> s[g + i] == s[g..][i] == rest[i];
  }

  /** Where the parts of `Digits(m) + "e" + Digits(p) + rest` lie. */
  lemma ScientificParts(m: nat, p: nat, rest: string)
    requires rest == [] || !IsDigit(rest[0])
    ensures var s := Digits(m) + "e" + Digits(p) + rest;
      var c, g := |Digits(m)|, |Digits(m)| + 1 + |Digits(p)|;
      0 < c && c + 1 < g <= |s| && s[..c] == Digits(m) && s[c] == 'e' &&
      s[c + 1..g] == Digits(p) && s[g..] == rest && (g == |s| || !IsDigit(s[g]))
  {
    var s := Digits(m) + "e" + Digits(p) + rest;
    var g := |Digits(m)| + 1 + |Digits(p)|;
    assert g < |s| ==> s[g] == rest[0];
  }

  /** A string made of unsigned digits up to `c`, an 'e', and exponent digits up to `g` is
      read as those digits scaled by the exponent, and is numeric exactly when only
      whitespace follows. */
  lemma ReadScientific(s: string, c: nat, g: nat)
    requires 0 < c && c + 1 < g <= |s| && AllDigits(s[..c]) && s[c] == 'e'
    requires AllDigits(s[c + 1..g]) && (g == |s| || !IsDigit(s[g]))
    ensures ReadNumeral(s) == Numeral(false, s[..c], DigitsValue(s[c + 1..g]))
    ensures IsNumericString(s) <==> SpaceRun(s, g, NumericSpace) == |s|
  {
    assert s[..c][0] == s[0];
    NoSpaceAtDigit(s, 0);
    assert s[0..c] == s[..c];
    DigitRunTo(s, 0, c);
    ExponentOfDigits(s, c, g);
    assert s[0..c] + "" == s[..c];
  }

  /** Skipping whitespace reaches the end exactly when only whitespace is left. */
  lemma {:induction false} SpaceRunToEnd(s: string, i: nat, ws: set<char>)
    requires i <= |s|
    ensures SpaceRun(s, i, ws) == |s| <==> forall k :: i <= k < |s| ==> s[k] in ws
    decreases |s| - i
  {
    if i < |s| && s[i] in ws {
      SpaceRunToEnd(s, i + 1, ws);
    }
  }

  /** Text that starts with a letter is not numeric and reads as 0. */
  lemma LetterExample()
    ensures !IsNumericString("abc") && IntVal(Str("abc")) == 0
  {
    var s := "abc";
    assert s[0] == 'a' && s[0] !in NumericSpace;
    assert SpaceRun(s, 0, NumericSpace) == 0 && DigitRun(s, 0) == 0;
    assert ReadNumeral(s) == Numeral(false, "", 0);
  }

  /** A decimal fraction is truncated: digits `w`, '.', and any further digits read as `w`
      while `w` fits an integer. */
  lemma IntValOfFraction(w: nat, f: string)
    requires AllDigits(f) && w <= IntMax
    ensures IntVal(Str(Digits(w) + "." + f)) == w
  {
    var dw := Digits(w);
    FractionReading(dw, f);
    DigitsValueOfDigits(w);
    var ds := dw + f;
    if f == [] {
      assert ds == dw;
    } else {
      assert ds[..|dw|] == dw;
    }
  }

  lemma FractionReading(dw: string, f: string)
    requires CanonicalDigits(dw) && AllDigits(f)
    ensures ReadNumeral(dw + "." + f) == Numeral(false, dw + f, 0 - |f|)
  {
    var s := dw + "." + f;
    var c := |dw|;
    assert s[..c] == dw && s[c] == '.' && s[c + 1..] == f;
    assert s[0] == dw[0];
    NoSpaceAtDigit(s, 0);
    DigitRunTo(s, 0, c);
    DigitRunToEnd(s, c + 1);
    assert s[0..c] == dw && s[c + 1..|s|] == f;
  }

  lemma NoSpaceAtDigit(s: string, i: nat)
    requires i < |s| && IsDigit(s[i])
    ensures SpaceRun(s, i, NumericSpace) == i
  {
    assert s[i] !in NumericSpace;
  }

  /** An unsigned exponent is the value of its digits. */
  lemma ExponentOfDigits(s: string, d: nat, g: nat)
    requires d + 1 < g <= |s| && AllDigits(s[d + 1..g]) && (g == |s| || !IsDigit(s[g]))
    ensures ExponentValue(s, d) == DigitsValue(s[d + 1..g])
    ensures ExponentEnd(s, d) == g
  {
    assert s[d + 1..g][0] == s[d + 1];
    DigitRunTo(s, d + 1, g);
  }

  /** A run of digits that ends at `j` is what `DigitRun` finds. */
  lemma {:induction false} DigitRunTo(s: string, i: nat, j: nat)
    requires i <= j <= |s| && AllDigits(s[i..j]) && (j == |s| || !IsDigit(s[j]))
    ensures DigitRun(s, i) == j
    decreases j - i
  {
    if i < j {
      assert s[i..j][0] == s[i];
      assert s[i + 1..j] == s[i..j][1..];
      DigitRunTo(s, i + 1, j);
    }
  }

  lemma DigitRunToEnd(s: string, i: nat)
    requires i <= |s| && AllDigits(s[i..])
    ensures DigitRun(s, i) == |s|
  {
    DigitRunTo(s, i, |s|);
  }

  /** `filter_var($v, FILTER_VALIDATE_INT)` on a trimmed string: an optional sign and
      canonical digits of an in-range integer ("+0" and "-0" included). */
  function ParseFilterInt(t: string): (r: Option<int>)
    ensures r.Some? ==> IntMin <= r.value <= IntMax
  {
    var neg := |t| > 0 && t[0] == '-';
    var body := if |t| > 0 && (t[0] == '-' || t[0] == '+') then t[1..] else t;
    if CanonicalDigits(body) then
      var m: int := DigitsValue(body);
      var n := if neg then -m else m;
      if IntMin <= n <= IntMax then Some(n) else None
    else None
  }

  /** `filter_var($v, FILTER_VALIDATE_INT)`: the integer, or `false` on failure. */
  function FilterInt(v: Value): (r: Value)
    ensures r.Int? || r == Bool(false)
    ensures v.Int? ==> r == v
    ensures v.Null? || v.Arr? || v.Obj? || v == Bool(false) ==> r == Bool(false)
  {
    match v
    case Int(_) => v
    case Bool(b) => if b then Int(1) else Bool(false)
    case Str(s) =>
      (match ParseFilterInt(Trim(s, FilterSpace))
       case Some(n) => Int(n)
       case None => Bool(false))
    case _ => Bool(false)
  }

  /** Trimming leaves a string alone when it neither starts nor ends with a trimmed character. */
  lemma TrimUnchanged(s: string, ws: set<char>)
    requires s == [] || (s[0] !in ws && s[|s| - 1] !in ws)
    ensures Trim(s, ws) == s
  {
    assert TrimLeft(s, ws) == s;
  }

  /** A decimal numeral is validated as the integer it spells. */
  lemma FilterIntOfDecimal(n: int)
    requires IntMin <= n <= IntMax
    ensures FilterInt(Str(IntToDecimal(n))) == Int(n)
  {
    var s := IntToDecimal(n);
    var m: nat := if n < 0 then -n else n;
    var d := Digits(m);
    assert s[|s| - 1] == d[|d| - 1];
    assert IsDigit(d[|d| - 1]);
    TrimUnchanged(s, FilterSpace);
    DigitsValueOfDigits(m);
    assert CanonicalDigits(d) && DigitsValue(d) == m;
    if n < 0 {
      assert s[1..] == d && s[0] == '-';
      assert ParseFilterInt(s) == Some(n);
    } else {
      assert s == d && s[0] != '-' && s[0] != '+';
      assert ParseFilterInt(s) == Some(n);
    }
  }

  function LowerChar(c: char): char {
    if 'A' <= c <= 'Z' then (c as int + 32) as char else c
  }

  /** ASCII lower case, as used by case-insensitive comparisons. */
  function Lower(s: string): (r: string)
    ensures |r| == |s|
  {
    seq(|s|, i requires 0 <= i < |s| => LowerChar(s[i]))
  }

  /** The words FILTER_VALIDATE_BOOLEAN accepts as true. */
  const TrueWords: set<string> := {"1", "true", "on", "yes"}

  /** `filter_var($v, FILTER_VALIDATE_BOOLEAN)` without FILTER_NULL_ON_FAILURE: true
      exactly for the words "1", "true", "on", "yes" (any case, trimmed). */
  function FilterBool(v: Value): (r: bool)
    ensures v.Bool? ==> r == v.b
    ensures v.Int? ==> (r <==> v.i == 1)
    ensures v.Null? || v.Arr? || v.Obj? ==> !r
    ensures v.Str? && r ==> Lower(Trim(v.s, FilterSpace)) in TrueWords
  {
    match v
    case Bool(b) => b
    case Int(i) => i == 1
    case Str(s) => Lower(Trim(s, FilterSpace)) in TrueWords
    case _ => false
  }

  /** `(string)$v`; `None` where PHP throws (an object without `__toString`). */
  function StringCast(v: Value): (r: Option<string>)
    ensures r.None? <==> v.Obj?
    ensures v.Str? ==> r == Some(v.s)
  {
    match v
    case Null => Some("")
    case Bool(b) => Some(if b then "1" else "")
    case Int(i) => Some(IntToDecimal(i))
    case Str(s) => Some(s)
    case Arr(_) => Some("Array")
    case Obj(_, _, _) => None
  }

  /** `(array)$v`. */
  function ArrayCast(v: Value): (r: Value)
    ensures r.Arr?
    ensures v.Arr? ==> r == v
    ensures IsScalar(v) ==> r == Arr([Entry(IntKey(0), v)])
    ensures v.Obj? ==> (|r.entries| == |v.props| &&
      forall i :: 0 <= i < |v.props| ==> r.entries[i].val == v.props[i].val)
  {
    match v
    case Null => Arr([])
    case Arr(_) => v
    case Obj(_, _, ps) => Arr(CastProperties(ps))
    case _ => Arr([Entry(IntKey(0), v)])
  }

  /** The key a property name becomes under `(array)`: a name spelling an integer becomes
      that integer key, as for any array key. */
  function PropertyKey(k: Key): Key {
    match k
    case StrKey(s) => ArrayKey(s)
    case IntKey(_) => k
  }

  /** The properties of an object as `(array)` lists them: in order, under their keys. */
  function CastProperties(ps: seq<Entry>): (es: seq<Entry>)
    ensures |es| == |ps|
    ensures forall i :: 0 <= i < |ps| ==> es[i].val == ps[i].val
  {
    if ps == [] then [] else [Entry(PropertyKey(ps[0].key), ps[0].val)] + CastProperties(ps[1..])
  }

  /** After `(array)` of an object, reading the array at a name (normalised as an array key)
      gives what reading the property of that name gave. */
  lemma {:induction false} ObjectCastLookup(ps: seq<Entry>, name: string)
    requires forall i :: 0 <= i < |ps| ==> ps[i].key.StrKey?
    ensures Find(CastProperties(ps), ArrayKey(name)) == Find(ps, StrKey(name))
  {
    if ps != [] {
      ObjectCastLookup(ps[1..], name);
      var es := CastProperties(ps);
      assert es[1..] == CastProperties(ps[1..]);
      assert es[0].key == ArrayKey(ps[0].key.s);
      assert ArrayKey(ps[0].key.s) == ArrayKey(name) <==> ps[0].key.s == name;
    }
  }

  /** `(array)` of an object with a property named "5" holds it under the integer key 5. */
  lemma NumericPropertyCast(cls: string, ancestors: set<string>, x: Value)
    ensures ArrayCast(Obj(cls, ancestors, [Entry(StrKey("5"), x)])) == Arr([Entry(IntKey(5), x)])
  {
    ArrayKeyOfDecimal(5);
    assert IntToDecimal(5) == "5";
  }

  function Utf8Width(c: char): nat {
    if c as int < 0x80 then 1 else if c as int < 0x800 then 2 else if c as int < 0x1_0000 then 3 else 4
  }

  /** The number of bytes of the UTF-8 encoding of `s`. */
  function Utf8Length(s: string): (n: nat)
    ensures |s| <= n <= 4 * |s|
  {
    if s == [] then 0 else Utf8Width(s[0]) + Utf8Length(s[1..])
  }

  /** `strlen($v)`; `None` where PHP throws a TypeError (arrays and objects). */
  function ByteLength(v: Value): (r: Option<nat>)
    ensures r.None? <==> v.Arr? || v.Obj?
    ensures v.Str? ==> r == Some(Utf8Length(v.s))
  {
    if v.Arr? || v.Obj? then None else Some(Utf8Length(StringCast(v).value))
  }

  // ---------------------------------------------------------------------------
  // explode / implode with a one-character separator

  /** `implode($sep, $parts)`. */
  function Implode(sep: char, parts: seq<string>): string {
    if parts == [] then "" else if |parts| == 1 then parts[0] else parts[0] + [sep] + Implode(sep, parts[1..])
  }

  /** `explode($sep, $s)`. */
  function Explode(sep: char, s: string): (parts: seq<string>)
    ensures |parts| >= 1
    ensures forall i :: 0 <= i < |parts| ==> sep !in parts[i]
  {
    if s == [] then [""]
    else if s[0] == sep then [""] + Explode(sep, s[1..])
    else
      var rest := Explode(sep, s[1..]);
      [[s[0]] + rest[0]] + rest[1..]
  }

  /** Gluing the pieces of `explode` back together gives the original string. */
  lemma {:induction false} ImplodeExplode(sep: char, s: string)
    ensures Implode(sep, Explode(sep, s)) == s
  {
    if s != [] {
      ImplodeExplode(sep, s[1..]);
      var rest := Explode(sep, s[1..]);
      if s[0] == sep {
        assert Explode(sep, s) == [""] + rest;
        assert s == [sep] + s[1..];
      } else {
        var parts := Explode(sep, s);
        assert parts[1..] == rest[1..];
        assert s == [s[0]] + s[1..];
      }
    }
  }

  lemma {:induction false} ExplodePrefix(sep: char, a: string, t: string)
    requires sep !in a
    ensures var e := Explode(sep, t); Explode(sep, a + t) == [a + e[0]] + e[1..]
  {
    var e := Explode(sep, t);
    if a != [] {
      ExplodePrefix(sep, a[1..], t);
      var rest := Explode(sep, a[1..] + t);
      assert rest == [a[1..] + e[0]] + e[1..];
      assert (a + t)[0] == a[0] && (a + t)[1..] == a[1..] + t;
      assert Explode(sep, a + t) == [[a[0]] + rest[0]] + rest[1..];
      assert [a[0]] + (a[1..] + e[0]) == a + e[0];
    } else {
      assert a + t == t && a + e[0] == e[0];
      assert e == [e[0]] + e[1..];
    }
  }

  /** Splitting what `implode` glued gives the pieces back, when no piece holds the separator. */
  lemma {:induction false} ExplodeImplode(sep: char, parts: seq<string>)
    requires |parts| >= 1
    requires forall i :: 0 <= i < |parts| ==> sep !in parts[i]
    ensures Explode(sep, Implode(sep, parts)) == parts
  {
    if |parts| == 1 {
      ExplodePrefix(sep, parts[0], "");
      assert Explode(sep, "") == [""];
      assert parts[0] + "" == parts[0];
      assert parts == [parts[0]];
    } else {
      var tail := Implode(sep, parts[1..]);
      ExplodeImplode(sep, parts[1..]);
      ExplodePrefix(sep, parts[0], [sep] + tail);
      assert parts[0] + [sep] + tail == parts[0] + ([sep] + tail);
      var glued := [sep] + tail;
      assert glued[0] == sep && glued[1..] == tail;
      assert Explode(sep, glued) == [""] + parts[1..];
      assert parts[0] + "" == parts[0];
      assert parts == [parts[0]] + parts[1..];
    }
  }
}
