/**
  Macros whose body is an integer constant with any number of parentheses and minus signs around it:
  counting the signs gives what applying each of them at the constant's type gives, without any overflow.
 */
module CMacro {
  import opened Basics
  import opened CConstant
  import opened CLexer

  datatype MacroValue = NotInteger | Integer(value: int, scalar: Scalar) | Invalid

  // ----- the meaning of a replacement list -----

  datatype Expr = Leaf(text: string) | Negated(inner: Expr) | Grouped(inner: Expr)

  function Spell(e: Expr): (r: seq<Token>)
    ensures |r| > 0
  {
    match e
    case Leaf(text) => [Number(text)]
    case Negated(inner) => [Minus] + Spell(inner)
    case Grouped(inner) => [Open] + Spell(inner) + [Close]
  }

  function ConstantOf(e: Expr): string {
    match e
    case Leaf(text) => text
    case Negated(inner) => ConstantOf(inner)
    case Grouped(inner) => ConstantOf(inner)
  }

  function Modulus(scalar: Scalar): nat {
    match scalar
    case I32 => 0x1_0000_0000
    case I32u => 0x1_0000_0000
    case I64 => 0x1_0000_0000_0000_0000
    case I64u => 0x1_0000_0000_0000_0000
  }

  function Minimum(scalar: Scalar): int {
    match scalar
    case I32 => -0x8000_0000
    case I64 => -0x8000_0000_0000_0000
    case _ => 0
  }

  predicate Unsigned(scalar: Scalar) {
    scalar == I32u || scalar == I64u
  }

  /** Unary minus at a type: modulo 2^n when it is unsigned. */
  function Negate(scalar: Scalar, v: int): int {
    if Unsigned(scalar) then (Modulus(scalar) - v) % Modulus(scalar) else -v
  }

  /** The value of the expression, minus by minus. */
  function Value(e: Expr, literal: nat, scalar: Scalar): int {
    match e
    case Leaf(_) => literal
    case Negated(inner) => Negate(scalar, Value(inner, literal, scalar))
    case Grouped(inner) => Value(inner, literal, scalar)
  }

  /** No minus in the expression overflows. */
  predicate NoOverflow(e: Expr, literal: nat, scalar: Scalar) {
    match e
    case Leaf(_) => literal <= Maximum(scalar)
    case Negated(inner) =>
      NoOverflow(inner, literal, scalar)
      && Minimum(scalar) <= Negate(scalar, Value(inner, literal, scalar)) <= Maximum(scalar)
    case Grouped(inner) => NoOverflow(inner, literal, scalar)
  }

  function Signs(e: Expr): nat {
    match e
    case Leaf(_) => 0
    case Negated(inner) => Signs(inner) + 1
    case Grouped(inner) => Signs(inner)
  }

  /** The shortcut: only the parity of the signs matters. */
  function ByParity(signs: nat, literal: nat, scalar: Scalar): int {
    if signs % 2 == 1 then (if Unsigned(scalar) then -(literal as int) % Modulus(scalar) else -(literal as int))
    else literal
  }

  lemma {:induction false} ParityIsEnough(e: Expr, literal: nat, scalar: Scalar)
    requires literal <= Maximum(scalar)
    ensures Value(e, literal, scalar) == ByParity(Signs(e), literal, scalar)
    ensures NoOverflow(e, literal, scalar)
  {
    match e
    case Leaf(_) =>
    case Negated(inner) =>
      ParityIsEnough(inner, literal, scalar);
      NegateTwice(Signs(inner), literal, scalar);
    case Grouped(inner) => ParityIsEnough(inner, literal, scalar);
  }

  lemma NegateTwice(signs: nat, literal: nat, scalar: Scalar)
    requires literal <= Maximum(scalar)
    ensures Negate(scalar, ByParity(signs, literal, scalar)) == ByParity(signs + 1, literal, scalar)
    ensures Minimum(scalar) <= ByParity(signs + 1, literal, scalar) <= Maximum(scalar)
  {
    assert (signs + 1) % 2 == 1 <==> signs % 2 == 0;
    match scalar
    case I32 =>
    case I64 =>
    case I32u => NegateTwice32(literal);
    case I64u => NegateTwice64(literal);
  }

  lemma NegateTwice32(x: nat)
    requires x < 0x1_0000_0000
    ensures -(x as int) % 0x1_0000_0000 == (0x1_0000_0000 - x) % 0x1_0000_0000
    ensures (0x1_0000_0000 - -(x as int) % 0x1_0000_0000) % 0x1_0000_0000 == x
  {
  }

  lemma NegateTwice64(x: nat)
    requires x < 0x1_0000_0000_0000_0000
    ensures -(x as int) % 0x1_0000_0000_0000_0000 == (0x1_0000_0000_0000_0000 - x) % 0x1_0000_0000_0000_0000
    ensures (0x1_0000_0000_0000_0000 - -(x as int) % 0x1_0000_0000_0000_0000) % 0x1_0000_0000_0000_0000 == x
  {
  }

  // ----- stripping signs and parentheses -----

  /** The depth of parentheses after the first `k` tokens. */
  function Depth(tokens: seq<Token>, k: nat): int
    requires k <= |tokens|
  {
    if k == 0 then 0
    else Depth(tokens, k - 1) + (match tokens[k - 1] case Open => 1 case Close => -1 case _ => 0)
  }

  /** Where the first parenthesis is matched. */
  method Closing(tokens: seq<Token>) returns (index: Option<nat>)
    requires tokens != [] && tokens[0] == Open
    ensures index == ClosingAt(tokens, 1)
  {
    var depth := 0;
    for i := 0 to |tokens|
      invariant depth == Depth(tokens, i) && (i > 0 ==> depth > 0)
      invariant i > 0 ==> ClosingAt(tokens, i) == ClosingAt(tokens, 1)
    {
      match tokens[i] {
        case Open => depth := depth + 1;
        case Close =>
          depth := depth - 1;
          if depth == 0 {
            return Some(i);
          }
        case _ =>
      }
    }
    return None;
  }

  function ClosingAt(tokens: seq<Token>, k: nat): Option<nat>
    requires 0 < k <= |tokens|
    decreases |tokens| - k
  {
    if k == |tokens| then None
    else if tokens[k] == Close && Depth(tokens, k + 1) == 0 then Some(k)
    else ClosingAt(tokens, k + 1)
  }

  /** A spelled expression is balanced, and never below its start. */
  lemma {:induction false} SpelledBalanced(e: Expr, prefix: seq<Token>, suffix: seq<Token>, k: nat)
    requires k <= |Spell(e)|
    ensures var all := prefix + Spell(e) + suffix;
            Depth(all, |prefix| + k) >= Depth(all, |prefix|)
            && (k == |Spell(e)| ==> Depth(all, |prefix| + k) == Depth(all, |prefix|))
    decreases e, 1
  {
    var all := prefix + Spell(e) + suffix;
    if k > 0 {
      match e
      case Leaf(_) => assert all[|prefix|].Number?;
      case Negated(inner) =>
        var p := prefix + [Minus];
        assert all == p + Spell(inner) + suffix;
        assert all[|prefix|] == Minus;
        SpelledBalanced(inner, p, suffix, k - 1);
      case Grouped(inner) => GroupBalanced(inner, prefix, suffix, k);
    }
  }

  lemma {:induction false} GroupBalanced(inner: Expr, prefix: seq<Token>, suffix: seq<Token>, k: nat)
    requires 0 < k <= |Spell(inner)| + 2
    ensures var all := prefix + Spell(Grouped(inner)) + suffix;
            && Depth(all, |prefix| + k) >= Depth(all, |prefix|)
            && (k == |Spell(inner)| + 2 ==> Depth(all, |prefix| + k) == Depth(all, |prefix|))
    decreases Grouped(inner), 0
  {
    var all := prefix + Spell(Grouped(inner)) + suffix;
    var p, s, n := prefix + [Open], [Close] + suffix, |Spell(inner)|;
    assert all == p + Spell(inner) + s;
    assert all[|prefix|] == Open;
    if k <= n + 1 {
      SpelledBalanced(inner, p, s, k - 1);
      assert |p| + (k - 1) == |prefix| + k;
    } else {
      SpelledBalanced(inner, p, s, n);
      assert all[|prefix| + k - 1] == Close;
      assert |p| + n == |prefix| + k - 1;
    }
  }

  lemma {:induction false} GroupCloses(inner: Expr, k: nat)
    requires 0 < k <= |Spell(inner)| + 1
    ensures var tokens := Spell(Grouped(inner));
            ClosingAt(tokens, k) == Some(|tokens| - 1)
    decreases |Spell(inner)| + 1 - k
  {
    var tokens := Spell(Grouped(inner));
    assert tokens == [Open] + Spell(inner) + [Close];
    assert Depth(tokens, 1) == 1;
    if k <= |Spell(inner)| {
      SpelledBalanced(inner, [Open], [Close], k);
      GroupCloses(inner, k + 1);
    } else {
      SpelledBalanced(inner, [Open], [Close], |Spell(inner)|);
    }
  }

  /** What is left when signs and parentheses are taken off, and how many signs there were. */
  datatype Stripped = Stripped(text: string, signs: nat) | NotOne

  predicate IsNumber(text: string) {
    text != "" && ('0' <= text[0] <= '9' || text[0] == '.')
  }

  function Strip(tokens: seq<Token>): Stripped
    decreases |tokens|
  {
    if |tokens| == 1 && tokens[0].Number? && IsNumber(tokens[0].text) then Stripped(tokens[0].text, 0)
    else if tokens != [] && tokens[0] == Minus then
      match Strip(tokens[1..])
      case Stripped(text, signs) => Stripped(text, signs + 1)
      case NotOne => NotOne
    else if |tokens| >= 2 && tokens[0] == Open && tokens[|tokens| - 1] == Close
      && ClosingAt(tokens, 1) == Some(|tokens| - 1) then
      Strip(tokens[1..|tokens| - 1])
    else NotOne
  }

  /** Exactly the expressions are stripped to their constant and signs. */
  lemma {:induction false} StripSpelled(e: Expr)
    requires IsNumber(ConstantOf(e))
    ensures Strip(Spell(e)) == Stripped(ConstantOf(e), Signs(e))
  {
    match e
    case Leaf(_) =>
    case Negated(inner) =>
      assert Spell(e)[1..] == Spell(inner);
      StripSpelled(inner);
    case Grouped(inner) =>
      var tokens := Spell(e);
      assert tokens[1..|tokens| - 1] == Spell(inner) && tokens[|tokens| - 1] == Close;
      GroupCloses(inner, 1);
      StripSpelled(inner);
  }

  lemma {:induction false} StrippedIsSpelled(tokens: seq<Token>) returns (e: Expr)
    requires Strip(tokens).Stripped?
    ensures Spell(e) == tokens && Strip(tokens) == Stripped(ConstantOf(e), Signs(e)) && IsNumber(ConstantOf(e))
    decreases |tokens|
  {
    hide ClosingAt, IsNumber;
    if |tokens| == 1 && tokens[0].Number? && IsNumber(tokens[0].text) {
      e := Leaf(tokens[0].text);
    } else if tokens[0] == Minus {
      var inner := StrippedIsSpelled(tokens[1..]);
      e := Negated(inner);
      assert tokens == [tokens[0]] + tokens[1..];
    } else {
      var inner := StrippedIsSpelled(tokens[1..|tokens| - 1]);
      e := Grouped(inner);
      Enclosed(tokens);
    }
  }

  lemma Enclosed(tokens: seq<Token>)
    requires |tokens| >= 2
    ensures tokens == [tokens[0]] + tokens[1..|tokens| - 1] + [tokens[|tokens| - 1]]
  {
  }

  /** The loop that takes signs and parentheses off. */
  method StripLoop(tokens: seq<Token>) returns (r: Stripped)
    ensures r == Strip(tokens)
  {
    var rest, signs := tokens, 0;
    while true
      invariant Strip(tokens) == if Strip(rest).Stripped? then Stripped(Strip(rest).text, Strip(rest).signs + signs)
                else NotOne
      decreases |rest|
    {
      if |rest| == 1 && rest[0].Number? && IsNumber(rest[0].text) {
        return Stripped(rest[0].text, signs);
      } else if rest != [] && rest[0] == Minus {
        signs := signs + 1;
        rest := rest[1..];
      } else if |rest| >= 2 && rest[0] == Open && rest[|rest| - 1] == Close {
        var index := Closing(rest);
        if index != Some(|rest| - 1) {
          return NotOne;
        }
        rest := rest[1..|rest| - 1];
      } else {
        return NotOne;
      }
    }
  }

  // ----- macros -----

  /** The body is a spelling of the expression. */
  ghost predicate Written(body: string, e: Expr) {
    Lexes(body, Spell(e)) && |Spell(e)| <= MAX_TOKENS
  }

  /** The body spells the expression, whose constant has the value and the type. */
  ghost predicate Means(body: string, e: Expr, literal: nat, scalar: Scalar) {
    Written(body, e) && IsConstant(ConstantOf(e), literal, scalar)
  }

  /** The text is neither an integer constant nor left to floating ones. */
  ghost predicate Unreadable(text: string) {
    (forall value, scalar :: !IsConstant(text, value, scalar)) && !IsFloating(text, Prefix(text).0)
  }

  lemma {:induction false} LexedNumbers(body: string, tokens: seq<Token>)
    requires Lexes(body, tokens)
    ensures forall k | 0 <= k < |tokens| && tokens[k].Number? :: IsNumber(tokens[k].text)
    decreases |body|
  {
    hide IsNumber, IsToken;
    if body != "" {
      if IsSpace(body[0]) {
        LexedNumbers(body[1..], tokens);
      } else {
        var n :| 0 < n <= |body| && IsToken(body, n, tokens[0]) && Lexes(body[n..], tokens[1..]);
        TokenNumber(body, n, tokens[0]);
        LexedNumbers(body[n..], tokens[1..]);
        assert forall k | 0 < k < |tokens| :: tokens[k] == tokens[1..][k - 1];
      }
    }
  }

  lemma TokenNumber(text: string, n: nat, token: Token)
    requires 0 < n <= |text| && IsToken(text, n, token)
    ensures token.Number? ==> IsNumber(token.text)
  {
    if token.Number? {
      TokenStarts(text, n, token);
      assert token.text[0] == text[0];
    }
  }

  lemma {:induction false} SpelledNumber(e: Expr)
    ensures Number(ConstantOf(e)) in Spell(e)
  {
    match e
    case Leaf(_) =>
    case Negated(inner) => SpelledNumber(inner);
    case Grouped(inner) => SpelledNumber(inner);
  }

  /** What the body spells is stripped to its constant and signs. */
  lemma WrittenStrips(body: string, e: Expr, tokens: seq<Token>)
    requires Written(body, e) && (Lexes(body, Spell(e)) ==> tokens == Spell(e))
    ensures Strip(tokens) == Stripped(ConstantOf(e), Signs(e))
  {
    hide Lexes, IsNumber, Strip;
    LexedNumbers(body, tokens);
    SpelledNumber(e);
    StripSpelled(e);
  }

  lemma MeansByParity(body: string, e: Expr, literal: nat, scalar: Scalar)
    requires Means(body, e, literal, scalar)
    ensures Value(e, literal, scalar) == ByParity(Signs(e), literal, scalar) && NoOverflow(e, literal, scalar)
  {
    hide Spell, Lexes, IsConstant, LiteralOf, ByParity;
    LiteralIsConstant(ConstantOf(e), literal, scalar);
    Fits(ConstantOf(e));
    ParityIsEnough(e, literal, scalar);
  }

  lemma Fits(text: string)
    ensures LiteralOf(text).Constant? ==> LiteralOf(text).value <= Maximum(LiteralOf(text).scalar)
  {
  }

  /** A macro has an integer value exactly when its body spells an expression with an integer constant, and it is
      the value of that expression at the constant's type, without any overflow. It is reported as invalid exactly
      when the body spells an expression with a text that is no constant. */
  method MacroValueOf(body: string) returns (r: MacroValue)
    ensures r.Integer? <==> exists e, literal, scalar :: Means(body, e, literal, scalar)
    ensures forall e, literal, scalar | Means(body, e, literal, scalar) ::
              r == Integer(Value(e, literal, scalar), scalar) && NoOverflow(e, literal, scalar)
    ensures r.Invalid? <==> exists e :: Written(body, e) && Unreadable(ConstantOf(e))
  {
    hide Lexes, Spell, Strip, LiteralOf, Value, NoOverflow, IsNumber, ByParity, IsConstant, IsFloating, Prefix;
    var tokens := MacroTokens(body);
    if tokens.None? {
      return NotInteger;
    }
    forall e | Written(body, e) ensures Strip(tokens.value) == Stripped(ConstantOf(e), Signs(e)) {
      WrittenStrips(body, e, tokens.value);
    }
    forall e, literal, scalar | Means(body, e, literal, scalar)
      ensures Value(e, literal, scalar) == ByParity(Signs(e), literal, scalar) && NoOverflow(e, literal, scalar)
    {
      MeansByParity(body, e, literal, scalar);
    }
    var stripped := StripLoop(tokens.value);
    if stripped.NotOne? {
      return NotInteger;
    }
    ghost var e := StrippedIsSpelled(tokens.value);
    assert Written(body, e);
    var literal := IntegerLiteral(stripped.text);
    match literal
    case Floating => return NotInteger;
    case Malformed => return Invalid;
    case Constant(value, scalar) =>
      assert Means(body, e, value, scalar);
      return Integer(ByParity(stripped.signs, value, scalar), scalar);
  }
}
