/**
  The integer constants of C, with GNU binary ones: which texts they are, and the value and the type that
  section 6.4.4.1 of C17 gives them on LP64.
 */
module CConstant {
  import opened Basics

  datatype Scalar = I32 | I32u | I64 | I64u

  datatype Literal = Floating | Constant(value: nat, scalar: Scalar) | Malformed

  function Maximum(scalar: Scalar): nat {
    match scalar
    case I32 => 0x7FFF_FFFF
    case I32u => 0xFFFF_FFFF
    case I64 => 0x7FFF_FFFF_FFFF_FFFF
    case I64u => 0xFFFF_FFFF_FFFF_FFFF
  }

  // ----- integer constants -----

  function Lower(c: char): char {
    if 'A' <= c <= 'Z' then (c as int + 32) as char else c
  }

  function LowerAll(text: string): (r: string)
    ensures |r| == |text|
  {
    seq(|text|, k requires 0 <= k < |text| => Lower(text[k]))
  }

  predicate IsDigit(c: char) {
    '0' <= c <= '9'
  }

  predicate IsHexDigit(c: char) {
    IsDigit(c) || 'a' <= Lower(c) <= 'f'
  }

  /** The digit that a character stands for, if it is one in the radix. */
  function DigitOf(c: char, radix: nat): (r: Option<nat>)
    ensures r.Some? ==> r.value < radix
  {
    var d := if IsDigit(c) then c as int - '0' as int
             else if 'a' <= Lower(c) <= 'z' then Lower(c) as int - 'a' as int + 10
             else 36;
    if d < radix then Some(d) else None
  }

  function Prefix(text: string): (r: (nat, nat))
    ensures r.1 <= |text|
  {
    if |text| >= 2 && text[0] == '0' && Lower(text[1]) == 'x' then (16, 2)
    else if |text| >= 2 && text[0] == '0' && Lower(text[1]) == 'b' then (2, 2)
    else if |text| > 1 && text[0] == '0' && IsDigit(text[1]) then (8, 1)
    else (10, 0)
  }

  predicate IsFloating(text: string, radix: nat) {
    '.' in text || (if radix == 16 then 'p' in LowerAll(text) else 'e' in LowerAll(text))
  }

  predicate Continues(c: char, radix: nat) {
    if radix == 16 then IsHexDigit(c) else IsDigit(c)
  }

  /** Where the digits end, from `k` on. */
  function DigitsFrom(body: string, radix: nat, k: nat): (r: nat)
    requires k <= |body|
    ensures k <= r <= |body|
    decreases |body| - k
  {
    if k < |body| && Continues(body[k], radix) then DigitsFrom(body, radix, k + 1) else k
  }

  predicate AllDigits(digits: string, radix: nat) {
    forall k | 0 <= k < |digits| :: DigitOf(digits[k], radix).Some?
  }

  /** The number that the digits spell. */
  function Positional(digits: string, radix: nat): nat
    requires AllDigits(digits, radix)
  {
    if digits == [] then 0
    else
      var last := |digits| - 1;
      Positional(digits[..last], radix) * radix + DigitOf(digits[last], radix).value
  }

  /** Accumulates the digits; stops at one that is none, or when 64 bits do not suffice. The accumulator
      has 128 bits, which never overflow. */
  method Accumulate(digits: string, radix: nat) returns (r: Option<nat>)
    requires 2 <= radix <= 16
    ensures r.Some? <==> AllDigits(digits, radix) && Positional(digits, radix) <= MAX_U64
    ensures r.Some? ==> r.value == Positional(digits, radix)
  {
    hide Positional, DigitOf;
    var value: nat := 0;
    NoDigits(radix);
    assert digits[..0] == [];
    for k := 0 to |digits|
      invariant AllDigits(digits[..k], radix) && value == Positional(digits[..k], radix) && value <= MAX_U64
    {
      var digit := DigitOf(digits[k], radix);
      if digit.None? {
        return None;
      }
      PositionalNext(digits, radix, k);
      NoWrap(value, radix, digit.value);
      assert value * radix + digit.value < 0x1_0000_0000_0000_0000_0000_0000_0000_0000;
      value := value * radix + digit.value;
      if value > MAX_U64 {
        if AllDigits(digits, radix) {
          PositionalGrows(digits, radix, k + 1);
        }
        return None;
      }
    }
    assert digits[..|digits|] == digits;
    return Some(value);
  }

  lemma NoDigits(radix: nat)
    ensures AllDigits([], radix) && Positional([], radix) == 0
  {
  }

  lemma PositionalNext(digits: string, radix: nat, k: nat)
    requires k < |digits| && AllDigits(digits[..k], radix) && DigitOf(digits[k], radix).Some?
    ensures AllDigits(digits[..k + 1], radix)
    ensures Positional(digits[..k + 1], radix)
            == Positional(digits[..k], radix) * radix + DigitOf(digits[k], radix).value
  {
    assert digits[..k + 1][..k] == digits[..k];
  }

  lemma NoWrap(value: nat, radix: nat, digit: nat)
    requires value <= MAX_U64 && radix <= 16 && digit < 36
    ensures value * radix + digit < 0x1_0000_0000_0000_0000_0000_0000_0000_0000
  {
    assert 0 <= value * (16 - radix) == value * 16 - value * radix;
  }

  lemma TimesGrows(x: nat, r: nat)
    requires r >= 1
    ensures x <= x * r
  {
  }

  lemma {:induction false} PositionalGrows(digits: string, radix: nat, k: nat)
    requires radix >= 2 && k <= |digits| && AllDigits(digits, radix)
    ensures AllDigits(digits[..k], radix) && Positional(digits[..k], radix) <= Positional(digits, radix)
    decreases |digits|
  {
    hide DigitOf;
    if k < |digits| {
      var front := digits[..|digits| - 1];
      PositionalGrows(front, radix, k);
      assert front[..k] == digits[..k];
      TimesGrows(Positional(front, radix), radix);
    } else {
      assert digits[..k] == digits;
    }
  }

  /** What a suffix says: unsigned or not, and how many times `long`. */
  function Suffix(suffix: string): Option<(bool, nat)> {
    var lower := LowerAll(suffix);
    if lower == "" then Some((false, 0))
    else if lower == "u" then Some((true, 0))
    else if lower == "l" then Some((false, 1))
    else if lower == "ul" || lower == "lu" then Some((true, 1))
    else if !OneCaseLongs(suffix) then None
    else if lower == "ll" then Some((false, 2))
    else if lower == "ull" || lower == "llu" then Some((true, 2))
    else None
  }

  /** `long long` is written `ll` or `LL`. */
  predicate OneCaseLongs(suffix: string) {
    exists k | 0 <= k < |suffix| - 1 :: suffix[k] == suffix[k + 1] && (suffix[k] == 'l' || suffix[k] == 'L')
  }

  function Candidates(unsigned: bool, longs: nat, decimal: bool): seq<Scalar> {
    if !unsigned && longs == 0 then (if decimal then [I32, I64] else [I32, I32u, I64, I64u])
    else if unsigned && longs == 0 then [I32u, I64u]
    else if !unsigned then (if decimal then [I64] else [I64, I64u])
    else [I64u]
  }

  function FirstFit(value: nat, candidates: seq<Scalar>): Option<Scalar> {
    if candidates == [] then None
    else if value <= Maximum(candidates[0]) then Some(candidates[0])
    else FirstFit(value, candidates[1..])
  }

  // The types of C, and the table of section 6.4.4.1.

  datatype CType = Int | UnsignedInt | Long | UnsignedLong | LongLong | UnsignedLongLong

  function LP64(t: CType): Scalar {
    match t
    case Int => I32
    case UnsignedInt => I32u
    case Long => I64
    case UnsignedLong => I64u
    case LongLong => I64
    case UnsignedLongLong => I64u
  }

  /** The list in which the type of an integer constant is the first that can represent its value. */
  function Table(unsigned: bool, longs: nat, decimal: bool): seq<CType> {
    match (unsigned, longs)
    case (false, 0) =>
      if decimal then [Int, Long, LongLong] else [Int, UnsignedInt, Long, UnsignedLong, LongLong, UnsignedLongLong]
    case (true, 0) => [UnsignedInt, UnsignedLong, UnsignedLongLong]
    case (false, 1) => if decimal then [Long, LongLong] else [Long, UnsignedLong, LongLong, UnsignedLongLong]
    case (true, 1) => [UnsignedLong, UnsignedLongLong]
    case (false, _) => if decimal then [LongLong] else [LongLong, UnsignedLongLong]
    case (true, _) => [UnsignedLongLong]
  }

  function FirstInTable(value: nat, list: seq<CType>): Option<CType> {
    if list == [] then None
    else if value <= Maximum(LP64(list[0])) then Some(list[0])
    else FirstInTable(value, list[1..])
  }

  /** The candidates give the type of the standard. */
  lemma TypeOfConstant(value: nat, unsigned: bool, longs: nat, decimal: bool)
    ensures var standard := FirstInTable(value, Table(unsigned, longs, decimal));
            FirstFit(value, Candidates(unsigned, longs, decimal))
            == (if standard.Some? then Some(LP64(standard.value)) else None)
  {
    var table, candidates := Table(unsigned, longs, decimal), Candidates(unsigned, longs, decimal);
    hide FirstFit, FirstInTable;
    FitAt(value, candidates, 0);
    FitAt(value, candidates, 1);
    if |candidates| > 1 { FitAt(value, candidates, 2); }
    if |candidates| > 2 { FitAt(value, candidates, 3); FitAt(value, candidates, 4); }
    TableAt(value, table, 0);
    TableAt(value, table, 1);
    if |table| > 1 { TableAt(value, table, 2); }
    if |table| > 2 { TableAt(value, table, 3); }
    if |table| > 3 { TableAt(value, table, 4); }
    if |table| > 4 { TableAt(value, table, 5); TableAt(value, table, 6); }
  }

  lemma FitAt(value: nat, s: seq<Scalar>, k: nat)
    requires k <= |s|
    ensures s[0..] == s
    ensures FirstFit(value, s[k..])
            == if k == |s| then None else if value <= Maximum(s[k]) then Some(s[k]) else FirstFit(value, s[k + 1..])
  {
    assert k < |s| ==> s[k..][0] == s[k] && s[k..][1..] == s[k + 1..];
  }

  lemma TableAt(value: nat, s: seq<CType>, k: nat)
    requires k <= |s|
    ensures s[0..] == s
    ensures FirstInTable(value, s[k..])
            == if k == |s| then None
               else if value <= Maximum(LP64(s[k])) then Some(s[k])
               else FirstInTable(value, s[k + 1..])
  {
    assert k < |s| ==> s[k..][0] == s[k] && s[k..][1..] == s[k + 1..];
  }

  /** The constant that a preprocessing number is, with the type of the standard. */
  function LiteralOf(text: string): (r: Literal)
    ensures r.Constant? ==> r.value <= Maximum(r.scalar)
  {
    var (radix, prefix) := Prefix(text);
    if IsFloating(text, radix) then Floating
    else
      var body := text[prefix..];
      var n := DigitsFrom(body, radix, 0);
      var suffix := Suffix(body[n..]);
      if n == 0 || !AllDigits(body[..n], radix) || suffix.None? then Malformed
      else
        var value := Positional(body[..n], radix);
        match FirstInTable(value, Table(suffix.value.0, suffix.value.1, radix == 10))
        case Some(t) =>
          FirstRepresents(value, Table(suffix.value.0, suffix.value.1, radix == 10)); Constant(value, LP64(t))
        case None => Malformed
  }

  lemma {:induction false} FirstRepresents(value: nat, list: seq<CType>)
    ensures FirstInTable(value, list).Some? ==> value <= Maximum(LP64(FirstInTable(value, list).value))
  {
    if list != [] {
      FirstRepresents(value, list[1..]);
    }
  }

  // ----- the grammar of integer constants -----

  datatype Form = Decimal | Octal | Hexadecimal | Binary

  function Radix(form: Form): nat {
    match form
    case Decimal => 10
    case Octal => 8
    case Hexadecimal => 16
    case Binary => 2
  }

  /** The parts of a constant, and what its suffix says. */
  datatype Spelling = Spelling(
    form: Form, prefix: string, digits: string, suffix: string, unsigned: bool, longs: nat)

  predicate IsPrefix(form: Form, prefix: string) {
    match form
    case Decimal => prefix == ""
    case Octal => prefix == ""
    case Hexadecimal => prefix == "0x" || prefix == "0X"
    case Binary => prefix == "0b" || prefix == "0B"
  }

  /** A decimal constant starts with another digit than 0; an octal one starts with 0. */
  predicate IsDigits(form: Form, digits: string) {
    && digits != "" && AllDigits(digits, Radix(form))
    && (form.Decimal? ==> digits[0] != '0')
    && (form.Octal? ==> digits[0] == '0')
  }

  predicate IsUnsigned(u: string, unsigned: bool) {
    if unsigned then u == "u" || u == "U" else u == ""
  }

  predicate IsLong(l: string, longs: nat) {
    match longs
    case 0 => l == ""
    case 1 => l == "l" || l == "L"
    case 2 => l == "ll" || l == "LL"
    case _ => false
  }

  /** An unsigned and a long suffix, in either order, each of which may be absent. */
  ghost predicate IsSuffix(suffix: string, unsigned: bool, longs: nat) {
    exists u, l | IsUnsigned(u, unsigned) && IsLong(l, longs) :: suffix == u + l || suffix == l + u
  }

  ghost predicate Spells(s: Spelling, text: string) {
    && text == s.prefix + s.digits + s.suffix
    && IsPrefix(s.form, s.prefix) && IsDigits(s.form, s.digits) && IsSuffix(s.suffix, s.unsigned, s.longs)
  }

  /** The text is a constant with the value and the type: the first of the table that represents the value. */
  ghost predicate SpellsConstant(s: Spelling, text: string, value: nat, scalar: Scalar) {
    && Spells(s, text)
    && value == Positional(s.digits, Radix(s.form))
    && var t := FirstInTable(value, Table(s.unsigned, s.longs, s.form.Decimal?));
    t.Some? && scalar == LP64(t.value)
  }

  ghost predicate IsConstant(text: string, value: nat, scalar: Scalar) {
    exists s :: SpellsConstant(s, text, value, scalar)
  }

  // ----- the scan finds the parts -----

  lemma SuffixIs(suffix: string, unsigned: bool, longs: nat)
    ensures Suffix(suffix) == Some((unsigned, longs)) <==> IsSuffix(suffix, unsigned, longs)
  {
    if Suffix(suffix) == Some((unsigned, longs)) {
      SuffixParts(suffix, unsigned, longs);
    }
    if u, l :| IsUnsigned(u, unsigned) && IsLong(l, longs) && (suffix == u + l || suffix == l + u) {
      JoinedSuffix(suffix, u, l, unsigned, longs);
    }
  }

  function Longs(longs: nat): string {
    match longs
    case 0 => ""
    case 1 => "l"
    case _ => "ll"
  }

  predicate OneCase(l: string) {
    |l| == 2 ==> l[0] == l[1]
  }

  lemma UnsignedLower(u: string)
    ensures LowerAll(u) == "u" <==> IsUnsigned(u, true)
  {
    assert |u| == 1 ==> LowerAll(u)[0] == Lower(u[0]);
  }

  lemma NoUnsigned()
    ensures IsUnsigned("", false)
  {
  }

  lemma LongLower(l: string, longs: nat)
    requires longs <= 2
    ensures IsLong(l, longs) <==> LowerAll(l) == Longs(longs) && OneCase(l)
  {
    assert forall k | 0 <= k < |l| :: LowerAll(l)[k] == Lower(l[k]);
    assert |l| == 1 ==> l == [l[0]];
    assert |l| == 2 ==> l == [l[0], l[1]];
  }

  lemma LowerJoin(a: string, b: string)
    ensures LowerAll(a + b) == LowerAll(a) + LowerAll(b)
  {
  }

  lemma SuffixParts(suffix: string, unsigned: bool, longs: nat)
    requires Suffix(suffix) == Some((unsigned, longs))
    ensures IsSuffix(suffix, unsigned, longs)
  {
    hide IsUnsigned, IsLong;
    if !unsigned {
      LongLower(suffix, longs);
      NoUnsigned();
      assert suffix == "" + suffix;
    } else if LowerAll(suffix)[0] == 'u' {
      UnsignedFirst(suffix, longs);
    } else {
      UnsignedLast(suffix, longs);
    }
  }

  lemma UnsignedFirst(suffix: string, longs: nat)
    requires Suffix(suffix) == Some((true, longs)) && LowerAll(suffix)[0] == 'u'
    ensures IsSuffix(suffix, true, longs)
  {
    hide IsUnsigned, IsLong;
    var u, l, lower := suffix[..1], suffix[1..], LowerAll(suffix);
    assert suffix == u + l;
    LowerJoin(u, l);
    assert lower[..1] == "u" && lower[1..] == Longs(longs);
    assert Lower(suffix[0]) == lower[0];
    UnsignedLower(u);
    LongLower(l, longs);
  }

  lemma UnsignedLast(suffix: string, longs: nat)
    requires Suffix(suffix) == Some((true, longs)) && LowerAll(suffix)[0] != 'u'
    ensures IsSuffix(suffix, true, longs)
  {
    hide IsUnsigned, IsLong;
    var lower := LowerAll(suffix);
    var l, u := suffix[..longs], suffix[longs..];
    assert suffix == l + u;
    LowerJoin(l, u);
    assert lower[..longs] == Longs(longs) && lower[longs..] == "u";
    assert Lower(suffix[longs]) == lower[longs] == lower[longs..][0];
    UnsignedLower(u);
    LongLower(l, longs);
  }

  lemma JoinedSuffix(suffix: string, u: string, l: string, unsigned: bool, longs: nat)
    requires IsUnsigned(u, unsigned) && IsLong(l, longs) && (suffix == u + l || suffix == l + u)
    ensures Suffix(suffix) == Some((unsigned, longs))
  {
    if longs == 2 {
      var k := if suffix == l + u then 0 else |u|;
      assert suffix[k] == suffix[k + 1] == l[0];
    }
    LowerJoin(u, l);
    LowerJoin(l, u);
    UnsignedLower(u);
    LongLower(l, longs);
    if !unsigned {
      assert LowerAll(suffix) == Longs(longs);
    } else if longs == 0 {
      assert LowerAll(suffix) == "u";
    } else if suffix == u + l {
      assert LowerAll(suffix) == if longs == 1 then "ul" else "ull";
    } else {
      assert LowerAll(suffix) == if longs == 1 then "lu" else "llu";
    }
  }

  /** The characters of a suffix are neither digits nor signs of a floating constant. */
  lemma SuffixLetters(suffix: string, unsigned: bool, longs: nat)
    requires IsSuffix(suffix, unsigned, longs)
    ensures forall k | 0 <= k < |suffix| :: suffix[k] in "uUlL"
  {
  }

  lemma {:induction false} DigitsEnd(body: string, radix: nat, k: nat, n: nat)
    requires k <= n <= |body| && (forall i | k <= i < n :: Continues(body[i], radix))
    requires n == |body| || !Continues(body[n], radix)
    ensures DigitsFrom(body, radix, k) == n
    decreases n - k
  {
    if k < n {
      DigitsEnd(body, radix, k + 1, n);
    }
  }

  /** A character of a constant. */
  predicate Plain(c: char, radix: nat) {
    || Lower(c) == 'u' || Lower(c) == 'l'
    || (if radix == 16 then IsHexDigit(c) || Lower(c) == 'x' else IsDigit(c) || Lower(c) == 'b')
  }

  lemma NotFloating(text: string, radix: nat)
    requires forall c | c in text :: Plain(c, radix)
    ensures !IsFloating(text, radix)
  {
    var lower := LowerAll(text);
    forall k | 0 <= k < |text| ensures lower[k] == Lower(text[k]) && lower[k] != (if radix == 16 then 'p' else 'e') {
      assert text[k] in text;
    }
  }

  /** A leading zero does not count. */
  lemma {:induction false} LeadingZero(digits: string, radix: nat)
    requires radix > 0 && AllDigits(digits, radix)
    ensures AllDigits("0" + digits, radix) && Positional("0" + digits, radix) == Positional(digits, radix)
    decreases |digits|
  {
    var all := "0" + digits;
    forall k | 0 <= k < |all| ensures DigitOf(all[k], radix).Some? {
      if k > 0 { assert all[k] == digits[k - 1]; }
    }
    if digits == [] {
      assert all[..0] == [];
      assert Positional(all[..0], radix) == 0;
    } else {
      var last := |digits| - 1;
      LeadingZero(digits[..last], radix);
      assert all[..|all| - 1] == "0" + digits[..last];
    }
  }

  /** The type of zero does not depend on the form. */
  lemma ZeroHasOneType(unsigned: bool, longs: nat)
    ensures var d, o := FirstInTable(0, Table(unsigned, longs, true)), FirstInTable(0, Table(unsigned, longs, false));
            d.Some? && o.Some? && LP64(d.value) == LP64(o.value)
  {
  }

  // ----- exactly the constants are read -----

  /** The radix and the digits that the scan of the spelling works with. */
  function Scanned(s: Spelling): (nat, string) {
    if s.form.Octal? then (if |s.digits| <= 1 then (10, s.digits) else (8, s.digits[1..]))
    else (Radix(s.form), s.digits)
  }

  lemma PrefixSpelled(s: Spelling, text: string)
    requires Spells(s, text)
    ensures var (radix, digits) := Scanned(s);
            var n := |text| - |digits| - |s.suffix|;
            && Prefix(text) == (radix, n) && digits != "" && AllDigits(digits, radix)
            && text[n..] == digits + s.suffix
            && Positional(digits, radix) == Positional(s.digits, Radix(s.form))
  {
    hide IsSuffix, Positional;
    SuffixLetters(s.suffix, s.unsigned, s.longs);
    var (radix, digits) := Scanned(s);
    assert |s.prefix| == 0 ==> text == s.digits + s.suffix;
    assert text[|s.prefix|..] == s.digits + s.suffix;
    match s.form
    case Decimal => assert text[0] == s.digits[0];
    case Hexadecimal =>
    case Binary =>
    case Octal =>
      assert text[0] == '0';
      if |s.digits| == 1 {
        assert s.digits == "0";
        OneZero();
      } else {
        assert text[1] == s.digits[1];
        assert DigitOf(s.digits[1], 8).Some?;
        assert s.digits == "0" + s.digits[1..];
        LeadingZero(s.digits[1..], 8);
        assert text[1..] == s.digits[1..] + s.suffix;
      }
  }

  lemma OneZero()
    ensures AllDigits("0", 10) && AllDigits("0", 8) && Positional("0", 10) == Positional("0", 8) == 0
  {
    assert "0"[..0] == "";
  }

  lemma ScanSpelled(s: Spelling, text: string)
    requires Spells(s, text)
    ensures var (radix, digits) := Scanned(s);
            !IsFloating(text, radix) && DigitsFrom(digits + s.suffix, radix, 0) == |digits|
  {
    hide IsSuffix, Positional, IsFloating;
    SuffixLetters(s.suffix, s.unsigned, s.longs);
    var (radix, digits) := Scanned(s);
    forall c | c in text ensures Plain(c, radix) {
      assert c in s.prefix || c in s.digits || c in s.suffix;
      if c in s.digits {
        var k :| 0 <= k < |s.digits| && s.digits[k] == c;
        assert DigitOf(s.digits[k], Radix(s.form)).Some?;
      }
    }
    NotFloating(text, radix);
    forall k | 0 <= k < |digits| ensures Continues((digits + s.suffix)[k], radix) {
      var i := if s.form.Octal? && |s.digits| > 1 then k + 1 else k;
      assert digits[k] == s.digits[i];
      assert DigitOf(s.digits[i], Radix(s.form)).Some?;
    }
    DigitsEnd(digits + s.suffix, radix, 0, |digits|);
  }

  lemma LiteralSpelled(s: Spelling, text: string, value: nat, scalar: Scalar)
    requires SpellsConstant(s, text, value, scalar)
    ensures LiteralOf(text) == Constant(value, scalar)
  {
    hide Prefix, IsFloating, DigitsFrom, Positional, AllDigits, Suffix, IsSuffix, FirstInTable, Table;
    PrefixSpelled(s, text);
    ScanSpelled(s, text);
    var (radix, digits) := Scanned(s);
    assert (digits + s.suffix)[..|digits|] == digits && (digits + s.suffix)[|digits|..] == s.suffix;
    SuffixIs(s.suffix, s.unsigned, s.longs);
    if s.form.Octal? && |s.digits| == 1 {
      OneZero();
      assert s.digits == "0";
      ZeroHasOneType(s.unsigned, s.longs);
    }
  }

  /** The form that the scan finds, with all its digits. */
  lemma FormOf(text: string, radix: nat, n: nat, digits: string, suffix: string)
    returns (form: Form, prefix: string, all: string)
    requires Prefix(text) == (radix, n) && text[n..] == digits + suffix && digits != "" && AllDigits(digits, radix)
    ensures text == prefix + all + suffix && IsPrefix(form, prefix) && IsDigits(form, all)
    ensures Positional(all, Radix(form)) == Positional(digits, radix)
    ensures form.Decimal? == (radix == 10) || Positional(digits, radix) == 0
  {
    hide Positional;
    assert text == text[..n] + digits + suffix;
    form, prefix, all := Decimal, text[..n], digits;
    if radix == 16 {
      form := Hexadecimal;
    } else if radix == 2 {
      form := Binary;
    } else if radix == 8 {
      form, prefix, all := Octal, "", text[..1] + digits;
      assert text[..1] == "0";
      LeadingZero(digits, 8);
    } else if text[0] == '0' {
      form := Octal;
      OnlyZero(text, digits, suffix);
      OneZero();
    }
  }

  lemma OnlyZero(text: string, digits: string, suffix: string)
    requires Prefix(text) == (10, 0) && text == digits + suffix && digits != "" && text[0] == '0'
             && AllDigits(digits, 10)
    ensures digits == "0"
  {
    assert |digits| > 1 ==> text[1] == digits[1] && DigitOf(digits[1], 10).Some?;
  }

  lemma SpellingOf(text: string) returns (s: Spelling)
    requires LiteralOf(text).Constant?
    ensures SpellsConstant(s, text, LiteralOf(text).value, LiteralOf(text).scalar)
  {
    hide Prefix, IsFloating, DigitsFrom, AllDigits, Positional, Suffix, IsSuffix, FirstInTable, Table, IsPrefix,
      IsDigits;
    var (radix, prefix) := Prefix(text);
    var body := text[prefix..];
    var n := DigitsFrom(body, radix, 0);
    var digits, suffix := body[..n], body[n..];
    var (unsigned, longs) := Suffix(suffix).value;
    SuffixIs(suffix, unsigned, longs);
    assert body == digits + suffix;
    var form, start, all := FormOf(text, radix, prefix, digits, suffix);
    s := Spelling(form, start, all, suffix, unsigned, longs);
    ZeroHasOneType(unsigned, longs);
  }

  /** A text is read as a constant exactly if the grammar makes it one, with that value and type. */
  lemma LiteralIsConstant(text: string, value: nat, scalar: Scalar)
    ensures LiteralOf(text) == Constant(value, scalar) <==> IsConstant(text, value, scalar)
  {
    hide LiteralOf, SpellsConstant;
    if LiteralOf(text) == Constant(value, scalar) {
      var s := SpellingOf(text);
    }
    if s :| SpellsConstant(s, text, value, scalar) {
      LiteralSpelled(s, text, value, scalar);
    }
  }

  /** A constant is returned exactly for the constants of the grammar, with their value and type; of the other
      texts, those with a dot or the letter of an exponent are left to floating constants. */
  method IntegerLiteral(text: string) returns (r: Literal)
    ensures r == LiteralOf(text)
    ensures forall value, scalar :: r == Constant(value, scalar) <==> IsConstant(text, value, scalar)
    ensures r.Floating? <==> IsFloating(text, Prefix(text).0)
  {
    forall value, scalar ensures LiteralOf(text) == Constant(value, scalar) <==> IsConstant(text, value, scalar) {
      LiteralIsConstant(text, value, scalar);
    }
    hide IsConstant, Positional, FirstInTable, Table, DigitOf, Suffix, Candidates, FirstFit;
    var (radix, prefix) := Prefix(text);
    if IsFloating(text, radix) {
      return Floating;
    }
    var body := text[prefix..];
    var n := DigitsFrom(body, radix, 0);
    if n == 0 {
      return Malformed;
    }
    var value := Accumulate(body[..n], radix);
    var suffix := Suffix(body[n..]);
    if AllDigits(body[..n], radix) && suffix.Some? {
      TypeOfConstant(Positional(body[..n], radix), suffix.value.0, suffix.value.1, radix == 10);
      TooLarge(Positional(body[..n], radix), Candidates(suffix.value.0, suffix.value.1, radix == 10));
    }
    if value.None? || suffix.None? {
      return Malformed;
    }
    var (unsigned, longs) := suffix.value;
    match FirstFit(value.value, Candidates(unsigned, longs, radix == 10))
    case Some(scalar) => return Constant(value.value, scalar);
    case None => return Malformed;
  }

  lemma {:induction false} TooLarge(value: nat, candidates: seq<Scalar>)
    ensures value > MAX_U64 ==> FirstFit(value, candidates).None?
  {
    if candidates != [] {
      TooLarge(value, candidates[1..]);
    }
  }
}
