/**
  Splitting the body of a macro, where only parentheses, minus signs and preprocessing numbers are wanted. The
  scan finds the split into the longest tokens that sections 6.4 and 6.4.8 of C17 ask for, and only that one.
 */
module CLexer {
  import opened Basics
  import opened CConstant

  datatype Token = Open | Close | Minus | Number(text: string)

  const MAX_TOKENS: nat := 64

  // ----- the grammar -----

  predicate IsSpace(c: char) {
    c == ' ' || c == '\t' || c == '\n' || c == '\r' || c as int == 12
  }

  predicate IsLetter(c: char) {
    'a' <= Lower(c) <= 'z'
  }

  /** What continues a preprocessing number by itself. */
  predicate NumberPart(c: char) {
    IsDigit(c) || IsLetter(c) || c == '_' || c == '.'
  }

  predicate IsSign(c: char) {
    c == '+' || c == '-'
  }

  predicate IsExponent(c: char) {
    c == 'e' || c == 'E' || c == 'p' || c == 'P'
  }

  /** A preprocessing number, as its grammar builds it up from the left. */
  predicate IsPreprocessingNumber(text: string) {
    var n := |text|;
    || (n == 1 && IsDigit(text[0]))
    || (n == 2 && text[0] == '.' && IsDigit(text[1]))
    || (n > 1 && IsPreprocessingNumber(text[..n - 1]) && NumberPart(text[n - 1]))
    || (n > 2 && IsPreprocessingNumber(text[..n - 2]) && IsExponent(text[n - 2]) && IsSign(text[n - 1]))
  }

  /** The first `n` characters are the token, and no longer token starts there. */
  ghost predicate IsToken(text: string, n: nat, token: Token)
    requires 0 < n <= |text|
  {
    match token
    case Open => text[..n] == "("
    case Close => text[..n] == ")"
    case Minus => text[..n] == "-" && forall c | c in "-=>" :: !("-" + [c] <= text)
    case Number(spelling) =>
      && text[..n] == spelling && IsPreprocessingNumber(spelling)
      && forall m | n < m <= |text| :: !IsPreprocessingNumber(text[..m])
  }

  /** The text consists of the tokens, with spaces between them where there are any. */
  ghost predicate Lexes(text: string, tokens: seq<Token>)
    decreases |text|
  {
    if text == "" then tokens == []
    else if IsSpace(text[0]) then Lexes(text[1..], tokens)
    else tokens != [] && exists n | 0 < n <= |text| :: IsToken(text, n, tokens[0]) && Lexes(text[n..], tokens[1..])
  }

  // ----- the scan of a number -----

  predicate StartsNumber(text: string) {
    text != "" && (IsDigit(text[0]) || (text[0] == '.' && |text| > 1 && IsDigit(text[1])))
  }

  /** Whether a number that reaches to `k` goes on with the character there. */
  predicate GoesOn(text: string, k: nat)
    requires 0 < k < |text|
  {
    NumberPart(text[k]) || (IsSign(text[k]) && IsExponent(text[k - 1]))
  }

  method ScanNumber(text: string, start: nat) returns (end: nat)
    requires start < |text|
    ensures start < end <= |text|
    ensures forall k | start < k < end :: GoesOn(text, k)
    ensures end < |text| ==> !GoesOn(text, end)
  {
    end := start + 1;
    while end < |text|
      invariant start < end <= |text|
      invariant forall k | start < k < end :: GoesOn(text, k)
    {
      var next := text[end];
      var exponentSign := IsSign(next) && IsExponent(text[end - 1]);
      if !(NumberPart(next) || exponentSign) {
        break;
      }
      end := end + 1;
    }
  }

  /** A text that starts as a number is one as long as it goes on. */
  lemma {:induction false} NumberWhile(text: string, n: nat)
    requires StartsNumber(text) && 0 < n <= |text|
    ensures IsPreprocessingNumber(text[..n])
            <==> (text[0] == '.' ==> n > 1) && forall k | 0 < k < n :: GoesOn(text, k)
    decreases n
  {
    var t := text[..n];
    if n > 1 {
      assert t[..n - 1] == text[..n - 1] && t[n - 1] == text[n - 1];
      NumberWhile(text, n - 1);
      if n > 2 {
        assert t[..n - 2] == text[..n - 2] && t[n - 2] == text[n - 2];
        NumberWhile(text, n - 2);
      }
      NumberStep(text, n);
    }
  }

  lemma NumberStep(text: string, n: nat)
    requires StartsNumber(text) && 1 < n <= |text|
    requires IsPreprocessingNumber(text[..n - 1])
             <==> (text[0] == '.' ==> n > 2) && forall k | 0 < k < n - 1 :: GoesOn(text, k)
    requires n > 2 ==>
               (IsPreprocessingNumber(text[..n - 2])
                <==> (text[0] == '.' ==> n > 3) && forall k | 0 < k < n - 2 :: GoesOn(text, k))
    ensures IsPreprocessingNumber(text[..n])
            <==> (text[0] == '.' ==> n > 1) && forall k | 0 < k < n :: GoesOn(text, k)
  {
    var t := text[..n];
    assert t[..n - 1] == text[..n - 1] && t[n - 1] == text[n - 1] && t[0] == text[0];
    assert n > 2 ==> t[..n - 2] == text[..n - 2] && t[n - 2] == text[n - 2];
    assert (forall k | 0 < k < n :: GoesOn(text, k))
           <==> GoesOn(text, n - 1) && forall k | 0 < k < n - 1 :: GoesOn(text, k);
  }

  lemma {:induction false} NumberStarts(text: string, n: nat)
    requires 0 < n <= |text| && IsPreprocessingNumber(text[..n])
    ensures StartsNumber(text)
    decreases n
  {
    var t := text[..n];
    if n > 1 && IsPreprocessingNumber(t[..n - 1]) {
      assert t[..n - 1] == text[..n - 1];
      NumberStarts(text, n - 1);
    } else if n > 2 && IsPreprocessingNumber(t[..n - 2]) {
      assert t[..n - 2] == text[..n - 2];
      NumberStarts(text, n - 2);
    }
  }

  // ----- one token after the other -----

  /** The token is the first of the text, wherever the rest can be split. */
  ghost predicate First(text: string, n: nat, token: Token)
    requires 0 < n <= |text|
  {
    forall tokens :: Lexes(text, tokens) <==> tokens != [] && tokens[0] == token && Lexes(text[n..], tokens[1..])
  }

  ghost predicate OnlyToken(text: string, n: nat, token: Token)
    requires 0 < n <= |text|
  {
    forall m, other | 0 < m <= |text| && IsToken(text, m, other) :: m == n && other == token
  }

  lemma OnlyIsFirst(text: string, n: nat, token: Token)
    requires 0 < n <= |text| && !IsSpace(text[0]) && IsToken(text, n, token) && OnlyToken(text, n, token)
    ensures First(text, n, token)
  {
    hide IsToken;
  }

  /** The start of each token tells its kind. */
  lemma TokenStarts(text: string, n: nat, token: Token)
    requires 0 < n <= |text| && IsToken(text, n, token)
    ensures match token
            case Open => n == 1 && text[0] == '('
            case Close => n == 1 && text[0] == ')'
            case Minus => n == 1 && text[0] == '-'
            case Number(_) => StartsNumber(text)
  {
    assert text[..n][0] == text[0];
    if token.Number? {
      NumberStarts(text, n);
    }
  }

  lemma ParenthesisFirst(text: string)
    requires text != "" && (text[0] == '(' || text[0] == ')')
    ensures First(text, 1, if text[0] == '(' then Open else Close)
  {
    hide IsPreprocessingNumber;
    var token := if text[0] == '(' then Open else Close;
    assert text[..1] == [text[0]];
    forall m, other | 0 < m <= |text| && IsToken(text, m, other) ensures m == 1 && other == token {
      TokenStarts(text, m, other);
    }
    OnlyIsFirst(text, 1, token);
  }

  /** A minus that starts a longer operator is followed by nothing that is a token here. */
  lemma MinusFirst(text: string)
    requires text != "" && text[0] == '-' && (|text| > 1 ==> text[1] != '-')
    ensures First(text, 1, Minus)
  {
    hide IsPreprocessingNumber;
    assert text[..1] == "-";
    forall m, other | 0 < m <= |text| && IsToken(text, m, other) ensures m == 1 && other == Minus {
      TokenStarts(text, m, other);
    }
    if |text| > 1 && text[1] in "=>" {
      assert "-" + [text[1]] <= text;
      NoToken(text);
      assert text[1..][0] == text[1];
      NoTokenStarts(text[1..]);
    } else {
      forall c | c in "-=>" ensures !("-" + [c] <= text) {
        assert ("-" + [c])[1] == c;
      }
      OnlyIsFirst(text, 1, Minus);
    }
  }

  lemma NoToken(text: string)
    requires text != "" && !IsSpace(text[0])
    requires forall n, token | 0 < n <= |text| :: !IsToken(text, n, token)
    ensures forall tokens :: !Lexes(text, tokens)
  {
    hide IsToken;
  }

  lemma NoTokenStarts(text: string)
    requires text != "" && !IsSpace(text[0]) && text[0] !in "()-" && !StartsNumber(text)
    ensures forall tokens :: !Lexes(text, tokens)
  {
    forall n, token | 0 < n <= |text| ensures !IsToken(text, n, token) {
      if IsToken(text, n, token) {
        TokenStarts(text, n, token);
      }
    }
    NoToken(text);
  }

  lemma DecrementStuck(text: string)
    requires |text| > 1 && text[0] == '-' && text[1] == '-'
    ensures forall tokens :: !Lexes(text, tokens)
  {
    assert "-" + ['-'] <= text;
    forall n, token | 0 < n <= |text| ensures !IsToken(text, n, token) {
      if IsToken(text, n, token) {
        TokenStarts(text, n, token);
      }
    }
    NoToken(text);
  }

  lemma NumberFirst(text: string, n: nat)
    requires StartsNumber(text) && 0 < n <= |text|
    requires (forall k | 0 < k < n :: GoesOn(text, k)) && (n < |text| ==> !GoesOn(text, n))
    ensures First(text, n, Number(text[..n]))
  {
    hide IsPreprocessingNumber;
    NumberWhile(text, n);
    assert text[0] == '.' ==> GoesOn(text, 1);
    forall m | n < m <= |text| ensures !IsPreprocessingNumber(text[..m]) {
      NumberWhile(text, m);
    }
    forall m, other | 0 < m <= |text| && IsToken(text, m, other) ensures m == n && other == Number(text[..n]) {
      TokenStarts(text, m, other);
    }
    OnlyIsFirst(text, n, Number(text[..n]));
  }

  // ----- the scan -----

  /** Every split of the body starts with the tokens and goes on at the index. */
  ghost predicate Begun(body: string, index: nat, tokens: seq<Token>)
    requires index <= |body|
  {
    forall all :: Lexes(body, all) <==> tokens <= all && Lexes(body[index..], all[|tokens|..])
  }

  lemma TokenBegun(body: string, index: nat, tokens: seq<Token>, n: nat, token: Token)
    requires index <= |body| && Begun(body, index, tokens)
    requires 0 < n <= |body| - index && First(body[index..], n, token)
    ensures Begun(body, index + n, tokens + [token])
  {
    hide Lexes;
    var k := |tokens|;
    assert body[index..][n..] == body[index + n..];
    forall all ensures Lexes(body, all) <==> tokens + [token] <= all && Lexes(body[index + n..], all[k + 1..]) {
      if tokens <= all {
        var rest := all[k..];
        assert rest != [] ==> rest[1..] == all[k + 1..] && rest[0] == all[k];
        assert tokens + [token] <= all <==> rest != [] && rest[0] == token;
      } else {
        assert tokens + [token] <= all ==> tokens <= all;
      }
    }
  }

  lemma SpaceBegun(body: string, index: nat, tokens: seq<Token>)
    requires index < |body| && IsSpace(body[index]) && Begun(body, index, tokens)
    ensures Begun(body, index + 1, tokens)
  {
    var rest := body[index..];
    assert rest[0] == body[index] && rest[1..] == body[index + 1..];
    assert forall ts :: Lexes(rest, ts) <==> Lexes(rest[1..], ts);
  }

  /** The tokens of the body, if it can be split into them and there are not too many. */
  method MacroTokens(body: string) returns (r: Option<seq<Token>>)
    ensures forall tokens :: r == Some(tokens) <==> Lexes(body, tokens) && |tokens| <= MAX_TOKENS
  {
    hide Lexes, First, IsDigit;
    var tokens: seq<Token>, index := [], 0;
    StartBegun(body);
    while index < |body|
      invariant index <= |body| && |tokens| <= MAX_TOKENS && Begun(body, index, tokens)
    {
      ghost var rest := body[index..];
      assert rest[0] == body[index] && (index + 1 < |body| ==> rest[1] == body[index + 1]);
      var c := body[index];
      if IsSpace(c) {
        SpaceBegun(body, index, tokens);
        index := index + 1;
      } else if c == '(' || c == ')' {
        ParenthesisFirst(rest);
        TokenBegun(body, index, tokens, 1, if c == '(' then Open else Close);
        tokens, index := tokens + [if c == '(' then Open else Close], index + 1;
      } else if c == '-' {
        if index + 1 < |body| && body[index + 1] == '-' {
          DecrementStuck(rest);
          return None;
        }
        MinusFirst(rest);
        TokenBegun(body, index, tokens, 1, Minus);
        tokens, index := tokens + [Minus], index + 1;
      } else if IsDigit(c) || (c == '.' && index + 1 < |body| && IsDigit(body[index + 1])) {
        var end := ScanNumber(body, index);
        NumberBegun(body, index, end, tokens);
        tokens, index := tokens + [Number(body[index..end])], end;
      } else {
        NoTokenStarts(rest);
        return None;
      }
      if |tokens| > MAX_TOKENS {
        return None;
      }
    }
    EndBegun(body, tokens);
    return Some(tokens);
  }

  lemma StartBegun(body: string)
    ensures Begun(body, 0, [])
  {
    hide Lexes;
    assert body[0..] == body;
    forall all: seq<Token> ensures [] <= all && all[0..] == all {}
  }

  lemma EndBegun(body: string, tokens: seq<Token>)
    requires Begun(body, |body|, tokens)
    ensures forall all :: Lexes(body, all) <==> all == tokens
  {
    assert body[|body|..] == "";
    forall all ensures Lexes(body, all) <==> all == tokens {
      assert Lexes("", all[|all|..]);
      if tokens <= all && Lexes("", all[|tokens|..]) {
        assert all == tokens + all[|tokens|..];
      }
    }
  }

  lemma NumberBegun(body: string, start: nat, end: nat, tokens: seq<Token>)
    requires start < end <= |body| && Begun(body, start, tokens) && StartsNumber(body[start..])
    requires (forall k | start < k < end :: GoesOn(body, k)) && (end < |body| ==> !GoesOn(body, end))
    ensures Begun(body, end, tokens + [Number(body[start..end])])
  {
    hide Lexes, NumberPart, IsSign, IsExponent;
    var rest, n := body[start..], end - start;
    forall k | 0 < k < |rest| ensures GoesOn(rest, k) == GoesOn(body, start + k) {
      assert rest[k] == body[start + k] && rest[k - 1] == body[start + k - 1];
    }
    NumberFirst(rest, n);
    assert rest[..n] == body[start..end];
    TokenBegun(body, start, tokens, n, Number(rest[..n]));
  }
}
