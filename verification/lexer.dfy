/**
 The tokenizer of the expression evaluator. The parser pulls one token at a
 time: `GetToken(s, i, number)` skips whitespace from index `i`, classifies the
 next lexeme of `s` and returns the token, the index just past the lexeme and
 the shared digit buffer (a NUMBER token appends its digits to that buffer).
 */
module Lexer {

  /** Token kinds, in the order of the source's `token_e`. */
  datatype Token =
    | Exp | Mult | Div | Plus | Minus | Number | LParen | RParen | End | Undefined
    | EqualTo | NotEqualTo | Greater | Less | GreaterEqual | LessEqual | LogicalAnd | LogicalOr

  const VerticalTab: char := 11 as char

  /** What `std::string::operator[]` yields at index `size()`. */
  const Nul: char := 0 as char

  /**
   Only space, tab, newline and vertical tab are skipped (no carriage return,
   no form feed); none of them can begin a token.
   */
  predicate IsWhitespace(c: char)
    ensures IsWhitespace(c) ==> !IsDigit(c) && !IsSwitchChar(c)
  {
    c == ' ' || c == '\t' || c == '\n' || c == VerticalTab
  }

  /** ASCII digits only; no digit is a case label of the `switch`, so NUMBER is reached only after it. */
  predicate IsDigit(c: char)
    ensures IsDigit(c) ==> !IsSwitchChar(c)
  {
    '0' <= c <= '9'
  }

  predicate AllDigits(s: string) {
    forall m :: 0 <= m < |s| ==> IsDigit(s[m])
  }

  /** The lookahead `expr[index]`, which reads '\0' one past the last character. */
  function Peek(s: string, i: nat): char {
    if i < |s| then s[i] else Nul
  }

  /** Index of the first non-whitespace character at or after `i`, or `|s|`. */
  function SkipWhitespace(s: string, i: nat): (k: nat)
    requires i <= |s|
    ensures i <= k <= |s|
    decreases |s| - i
  {
    if i < |s| && IsWhitespace(s[i]) then SkipWhitespace(s, i + 1) else i
  }

  /** `SkipWhitespace` stops at the first character that is not whitespace, having passed only whitespace. */
  lemma {:induction false} SkipWhitespaceSpec(s: string, i: nat)
    requires i <= |s|
    ensures var k := SkipWhitespace(s, i);
            (forall m :: i <= m < k ==> IsWhitespace(s[m])) && (k < |s| ==> !IsWhitespace(s[k]))
    decreases |s| - i
  {
    if i < |s| && IsWhitespace(s[i]) {
      SkipWhitespaceSpec(s, i + 1);
    }
  }

  /** End of the maximal run of ASCII digits that starts at `k`. */
  function DigitRunEnd(s: string, k: nat): (j: nat)
    requires k < |s| && IsDigit(s[k])
    ensures k < j <= |s|
    decreases |s| - k
  {
    if k + 1 < |s| && IsDigit(s[k + 1]) then DigitRunEnd(s, k + 1) else k + 1
  }

  /** The run found by `DigitRunEnd` is all digits and cannot be extended. */
  lemma {:induction false} DigitRunSpec(s: string, k: nat)
    requires k < |s| && IsDigit(s[k])
    ensures var j := DigitRunEnd(s, k);
            (forall m :: k <= m < j ==> IsDigit(s[m])) && (j < |s| ==> !IsDigit(s[j]))
    decreases |s| - k
  {
    if k + 1 < |s| && IsDigit(s[k + 1]) {
      DigitRunSpec(s, k + 1);
    }
  }

  /** How the `switch` of `get_token` ends: a token spanning `width` characters, or no case returned. */
  datatype Case = Taken(tok: Token, width: nat) | FellOut

  /**
   The `switch` on the first character, with `next` the lookahead. The cases for
   '=', '!', '&' and '|' have no `break`: when their second character does not
   match, control falls into the next case label, which is what the chain of
   Case* functions below spells out.
   */
  function SwitchOn(c: char, next: char): (r: Case)
    ensures r.Taken? ==> r.width == 1 || (r.width == 2 && next != Nul)
  {
    match c
    case '^' => Taken(Exp, 1)
    case '*' => Taken(Mult, 1)
    case '/' => Taken(Div, 1)
    case '+' => Taken(Plus, 1)
    case '-' => Taken(Minus, 1)
    case '(' => Taken(LParen, 1)
    case ')' => Taken(RParen, 1)
    case '=' => CaseEqual(next)
    case '!' => CaseBang(next)
    case '>' => CaseGreater(next)
    case '<' => if next == '=' then Taken(LessEqual, 2) else Taken(Less, 1)
    case '&' => CaseAmp(next)
    case '|' => CasePipe(next)
    case _ => FellOut
  }

  function CaseEqual(next: char): Case {
    if next == '=' then Taken(EqualTo, 2) else CaseBang(next)
  }

  function CaseBang(next: char): Case {
    if next == '=' then Taken(NotEqualTo, 2) else CaseGreater(next)
  }

  function CaseGreater(next: char): Case {
    if next == '=' then Taken(GreaterEqual, 2) else Taken(Greater, 1)
  }

  function CaseAmp(next: char): Case {
    if next == '&' then Taken(LogicalAnd, 2) else CasePipe(next)
  }

  function CasePipe(next: char): Case {
    if next == '|' then Taken(LogicalOr, 2) else FellOut
  }

  /** Result of one `get_token` call: the token, the new index and the digit buffer. */
  datatype Lexed = Lexed(tok: Token, next: nat, number: string)

  /**
   `get_token`: skip whitespace; at the end of the input return END without
   moving; otherwise take a switch case, or a maximal digit run (NUMBER, its
   digits appended to the buffer), or any other single character (UNDEFINED).
   */
  function GetToken(s: string, i: nat, number: string): (r: Lexed)
    requires i <= |s|
    ensures i <= r.next <= |s|
    ensures r.tok == End ==> r.next == |s|
    ensures r.tok != End ==> i < r.next
    ensures r.tok != Number ==> r.number == number
    ensures r.tok == Number ==> |number| < |r.number| && r.number[..|number|] == number
    ensures r.tok == Number ==> (AllDigits(number) ==> AllDigits(r.number))
  {
    var k := SkipWhitespace(s, i);
    if k == |s| then
      Lexed(End, k, number)
    else
      match SwitchOn(s[k], Peek(s, k + 1))
      case Taken(t, w) => Lexed(t, k + w, number)
      case FellOut =>
        if IsDigit(s[k]) then
          var j := DigitRunEnd(s, k);
          DigitRunSpec(s, k);
          Lexed(Number, j, number + s[k..j])
        else
          Lexed(Undefined, k + 1, number)
  }

  /** The text of each operator and parenthesis token; empty for END, NUMBER and UNDEFINED. */
  function Spelling(t: Token): string {
    match t
    case Exp => "^"
    case Mult => "*"
    case Div => "/"
    case Plus => "+"
    case Minus => "-"
    case LParen => "("
    case RParen => ")"
    case EqualTo => "=="
    case NotEqualTo => "!="
    case Greater => ">"
    case Less => "<"
    case GreaterEqual => ">="
    case LessEqual => "<="
    case LogicalAnd => "&&"
    case LogicalOr => "||"
    case Number => ""
    case End => ""
    case Undefined => ""
  }

  /** Characters that start a case of the `switch` in `get_token`. */
  predicate IsSwitchChar(c: char) {
    c in "^*/+-()=!><&|"
  }

  /** A single `>` or `<` becomes `>=` / `<=` when an `=` follows; no other spelling can be extended. */
  predicate Extends(t: Token, next: char) {
    (t == Greater || t == Less) && next == '='
  }

  /** Whitespace in front of a token changes nothing but the starting index. */
  lemma {:induction false} LexSkipsWhitespace(s: string, i: nat, j: nat, number: string)
    requires i <= j <= |s|
    requires forall m :: i <= m < j ==> IsWhitespace(s[m])
    ensures GetToken(s, i, number) == GetToken(s, j, number)
  {
    SkipWhitespaceFrom(s, i, j);
  }

  lemma {:induction false} SkipWhitespaceFrom(s: string, i: nat, j: nat)
    requires i <= j <= |s|
    requires forall m :: i <= m < j ==> IsWhitespace(s[m])
    ensures SkipWhitespace(s, i) == SkipWhitespace(s, j)
    decreases j - i
  {
    if i < j {
      SkipWhitespaceFrom(s, i + 1, j);
    }
  }

  /**
   Round trip, spelling to token: the spelling of an operator or parenthesis,
   not followed by a character that extends it, lexes back to that token and
   consumes exactly the spelling.
   */
  lemma LexSpelling(t: Token, s: string, k: nat, number: string)
    requires Spelling(t) != []
    requires k + |Spelling(t)| <= |s| && s[k..k + |Spelling(t)|] == Spelling(t)
    requires !Extends(t, Peek(s, k + 1))
    ensures GetToken(s, k, number) == Lexed(t, k + |Spelling(t)|, number)
  {
    assert s[k] == Spelling(t)[0];
    if |Spelling(t)| == 2 {
      assert s[k + 1] == Spelling(t)[1];
    }
  }

  /**
   Round trip, token to spelling: the characters an operator or parenthesis
   token consumed are its spelling, except for the fall-through aliases: a lone
   `=` or `!` lexes as GREATER, and `&|` lexes as LOGICAL_OR.
   */
  lemma LexemeSpelling(s: string, i: nat, number: string)
    requires i <= |s|
    ensures var r := GetToken(s, i, number);
            var k := SkipWhitespace(s, i);
            r.tok !in {End, Number, Undefined} ==>
              k < r.next <= |s| &&
              (s[k..r.next] == Spelling(r.tok)
               || (r.tok == Greater && s[k..r.next] in {"=", "!"})
               || (r.tok == LogicalOr && s[k..r.next] == "&|"))
  {
    var r := GetToken(s, i, number);
    var k := SkipWhitespace(s, i);
    if r.tok !in {End, Number, Undefined} {
      assert r.next == k + 1 ==> s[k..r.next] == [s[k]];
      assert r.next == k + 2 ==> s[k..r.next] == [s[k], s[k + 1]];
    }
  }

  /**
   The lone-character fall-throughs: `=` or `!` without a following `=` lexes
   as GREATER, `&` followed by `|` as LOGICAL_OR, and a lone `&` or `|` as
   UNDEFINED; each consumes only what is stated.
   */
  lemma LexFallthrough(s: string, k: nat, number: string)
    requires k < |s|
    ensures (s[k] == '=' || s[k] == '!') && Peek(s, k + 1) != '=' ==>
              GetToken(s, k, number) == Lexed(Greater, k + 1, number)
    ensures s[k] == '&' && Peek(s, k + 1) == '|' ==>
              GetToken(s, k, number) == Lexed(LogicalOr, k + 2, number)
    ensures s[k] == '&' && Peek(s, k + 1) != '&' && Peek(s, k + 1) != '|' ==>
              GetToken(s, k, number) == Lexed(Undefined, k + 1, number)
    ensures s[k] == '|' && Peek(s, k + 1) != '|' ==>
              GetToken(s, k, number) == Lexed(Undefined, k + 1, number)
  {
  }

  /**
   UNDEFINED is returned exactly for a character that starts no switch case
   and is no digit, or for a lone `&` / `|`; it always consumes one character.
   */
  lemma LexUndefined(s: string, i: nat, number: string)
    requires i <= |s|
    ensures var r := GetToken(s, i, number);
            var k := SkipWhitespace(s, i);
            r.tok == Undefined <==>
              k < |s| &&
              ((!IsSwitchChar(s[k]) && !IsDigit(s[k]))
               || (s[k] == '&' && Peek(s, k + 1) != '&' && Peek(s, k + 1) != '|')
               || (s[k] == '|' && Peek(s, k + 1) != '|'))
    ensures var r := GetToken(s, i, number);
            r.tok == Undefined ==> r.next == SkipWhitespace(s, i) + 1 && r.number == number
  {
  }

  /** A maximal run of digits lexes as one NUMBER token and is appended to the digit buffer. */
  lemma LexNumber(s: string, k: nat, d: string, number: string)
    requires d != [] && AllDigits(d)
    requires k + |d| <= |s| && s[k..k + |d|] == d
    requires k + |d| == |s| || !IsDigit(s[k + |d|])
    ensures GetToken(s, k, number) == Lexed(Number, k + |d|, number + d)
  {
    assert s[k] == d[0];
    DigitRunEndIs(s, k, k + |d|);
  }

  lemma {:induction false} DigitRunEndIs(s: string, k: nat, j: nat)
    requires k < j <= |s|
    requires forall m :: k <= m < j ==> IsDigit(s[m])
    requires j == |s| || !IsDigit(s[j])
    ensures DigitRunEnd(s, k) == j
    decreases j - k
  {
    if k + 1 < j {
      DigitRunEndIs(s, k + 1, j);
    }
  }

  /** END comes back exactly when nothing but whitespace is left from `i` on. */
  lemma LexEnd(s: string, i: nat, number: string)
    requires i <= |s|
    ensures GetToken(s, i, number).tok == End <==> forall m :: i <= m < |s| ==> IsWhitespace(s[m])
  {
    SkipWhitespaceSpec(s, i);
  }

  /** NUMBER comes back exactly when the first character after the whitespace is a digit. */
  lemma LexNumberStart(s: string, i: nat, number: string)
    requires i <= |s|
    ensures var k := SkipWhitespace(s, i);
            GetToken(s, i, number).tok == Number <==> k < |s| && IsDigit(s[k])
  {
  }

  /** The token kind and the new index do not depend on what the digit buffer already holds. */
  lemma LexBufferIndependent(s: string, i: nat, n1: string, n2: string)
    requires i <= |s|
    ensures GetToken(s, i, n1).tok == GetToken(s, i, n2).tok
    ensures GetToken(s, i, n1).next == GetToken(s, i, n2).next
  {
  }
}
