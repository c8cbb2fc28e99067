# MathCxx expression evaluator, modelled in Dafny

MathCxx is a header-only C++ evaluator for infix expressions. Its input is a
string of numbers, `+ - * / ^`, parentheses, the comparisons
`== != > < >= <=` and the logical operators `&& ||`. `Compute(expr)` first
tokenizes the string on demand with `get_token`. A recursive-descent parser
(`expr_p` → `and_or` → `less_greater_equal` → `plus_minus` → `mult_div` →
`unary` → `primary`) then builds a tree of `Calc`, `Unary` and `Value` nodes,
and `compute` walks that tree to a `double`.

This project models that pipeline as it is written, quirks included:

- `=` or `!` without a following `=` falls through the `switch` and lexes as
  GREATER.
- `&|` lexes as LOGICAL_OR.
- `primary` consumes whatever token follows a parenthesised expression, so
  `(1+2` parses like `(1+2)`.
- `^` is taken only directly after the first operand of `mult_div`, and its
  right side is a whole `mult_div`.
- `primary` returns a null pointer on any token other than NUMBER and `(`.
- Tokens after the first one no level accepts are ignored.
- The digit buffer `number` is a global, so it survives from one call to the
  next. `primary` fetches the next token before it converts the buffer. As a
  result `12 34` becomes the single literal 1234.

The code reports no parse error of any kind. It does not reject a lone `=`
or `!`, it does not check that `)` follows a parenthesised expression, and
where an operand is missing it builds a null node. `compute` later
dereferences that node unless a short-circuiting `&&` or `||` skips it.

A `string` here stands for the bytes of the C++ `std::string`: each
character is one byte, so every character of an input is below 256.

## Modules

- `lexer.dfy` (`Lexer`): `GetToken(s, i, number)` is `get_token` with the
  globals made explicit. It returns the token, the new index and the digit
  buffer. The fall-through of the `switch` is written as a chain of case
  functions.
- `ast.dfy` (`Ast`): the tree. `Bin` is `Calc`, `Neg` is `Unary`, `Lit` is a
  `Value` holding its digit string, and `Null` is a null child pointer.
- `parser.dfy` (`Parser`): the globals `expr`, `index`, `cur_token` and
  `number` become a `State` value. Every grammar function takes a state and
  returns its tree and a new state. Each do-while loop is a `*Tail` function.
  Termination uses the measure "characters left, plus one while the current
  token is not END", together with the grammar level.
- `printer.dfy` (`Printer`): not part of the source. It is a
  precedence-aware printer `Render` that parenthesises exactly where the
  grammar needs it. It is the partner the parser is checked against.
- `roundtrip.dfy` (`RoundTrip`): the proof that parsing a rendered tree gives
  back the tree, one grammar level at a time.
- `evaluator.dfy` (`Evaluator`): `compute` over an abstract number type and
  `Compute` as parse-then-evaluate. A null child is the outcome
  `NullDereference` instead of undefined behaviour.
- `scenarios.dfy` (`Scenarios`): whole-input results for the quirks above.
  The lone `=`, `&|`, the unchecked `)`, the `^` after a `*` chain, the
  joined digit runs and the null operand after `&&` are each stated for
  every input with the same token shape and for one concrete string. The
  trailing-input quirk is stated for one concrete string; its general form
  is `RoundTrip.ParseRender` with a non-empty suffix.

## Model

| member | source | states |
|---|---|---|
| Lexer.IsWhitespace | include/MathCxx.hpp:23-25 | `is_whitespace` accepts space, tab, newline and vertical tab, and none of them can begin a token |
| Lexer.IsDigit | include/MathCxx.hpp:27 | `is_digit` accepts the ASCII digits, none of which is a case label of the `switch` in `get_token` |
| Lexer.SkipWhitespace | include/MathCxx.hpp:58 | the whitespace loop stops inside the input, never before where it started |
| Lexer.SkipWhitespaceSpec | include/MathCxx.hpp:23-25 | only space, tab, newline and vertical tab are skipped, and the loop stops at the first other character |
| Lexer.DigitRunEnd | include/MathCxx.hpp:87-93 | a digit run started on a digit ends after at least one character and inside the input |
| Lexer.DigitRunSpec | include/MathCxx.hpp:87-93 | the run is all digits and maximal: the next character, if any, is not a digit |
| Lexer.SwitchOn | include/MathCxx.hpp:62-83 | a switch case consumes one character, or two only when a real second character exists (the '\0' past the end never matches) |
| Lexer.GetToken | include/MathCxx.hpp:57-99 | the index stays within the input; END leaves it at the end; every other token strictly advances it; only NUMBER changes the buffer, and then it keeps the old buffer as a prefix and grows by at least one digit (that the added part is exactly the digit run is `LexNumber`) |
| Lexer.LexSkipsWhitespace | include/MathCxx.hpp:58 | leading whitespace changes nothing about the token that follows |
| Lexer.LexEnd | include/MathCxx.hpp:57-60 | END is returned exactly when only whitespace remains |
| Lexer.LexNumberStart | include/MathCxx.hpp:85-95 | NUMBER is returned exactly when the first non-whitespace character is a digit |
| Lexer.LexSpelling | include/MathCxx.hpp:62-82 | each operator or parenthesis spelling lexes back to its token and consumes exactly its length, unless an `=` would extend `>` or `<` |
| Lexer.LexemeSpelling | include/MathCxx.hpp:62-83 | the characters an operator token consumed are its spelling, except that GREATER may come from a lone `=` or `!` and LOGICAL_OR from `&\|` |
| Lexer.LexFallthrough | include/MathCxx.hpp:73-98 | a lone `=` or `!` gives GREATER over one character; `&\|` gives LOGICAL_OR over two; a lone `&` or `\|` gives UNDEFINED over one |
| Lexer.LexUndefined | include/MathCxx.hpp:62-98 | UNDEFINED is returned exactly for a character that starts no case and is no digit, or a lone `&` or `\|`; it consumes one character and leaves the buffer alone |
| Lexer.LexNumber | include/MathCxx.hpp:85-95 | a maximal digit run lexes as one NUMBER that ends after the run and appends the run to the buffer |
| Lexer.LexBufferIndependent | include/MathCxx.hpp:85-95 | the token kind and the new index do not depend on what the buffer already holds |
| Parser.Advance | include/MathCxx.hpp:199-202 | fetching a token never moves the cursor back; after a non-END token it strictly lowers the termination measure; END means the input is used up |
| Parser.ExprP | include/MathCxx.hpp:212-216 | parsing a sub-expression terminates, never moves the cursor back, and stops on a token that no loop takes; when the buffer holds only digits, every literal is a non-empty digit run |
| Parser.AndOr | include/MathCxx.hpp:218-235 | stops on a token no loop takes; on a token that is no loop operator, not `^` and cannot start an operand, it gives a null tree and consumes nothing; a null tree only arises on a token that is not `^`, NUMBER, `-` or a loop operator |
| Parser.AndOrTail | include/MathCxx.hpp:222-232 | the loop keeps the operand it started with at the bottom of a left spine of `&&`/`\|\|` nodes, and without a logical operator it consumes nothing; that the loop folds to the left is established by `RoundTrip.ParseRender` |
| Parser.Lge | include/MathCxx.hpp:237-254 | the same as AndOr, one level tighter: after it, no comparison, additive or multiplicative operator is current |
| Parser.LgeTail | include/MathCxx.hpp:241-251 | the operand it started with ends up at the bottom of a left spine of comparison nodes, and without a comparison nothing is consumed; the left fold itself is established by `RoundTrip.ParseRender` |
| Parser.PlusMinus | include/MathCxx.hpp:257-274 | after it, neither `+ -` nor `* /` is current; on a token that is none of `+ - * / ^`, NUMBER or `(`, the tree is null and nothing is consumed |
| Parser.PlusMinusTail | include/MathCxx.hpp:261-271 | the operand it started with ends up at the bottom of a left spine of `+`/`-` nodes, and without `+` or `-` nothing is consumed; the left fold itself is established by `RoundTrip.ParseRender` and `Scenarios.LeftFold` |
| Parser.MultDiv | include/MathCxx.hpp:276-302 | no `*` or `/` is current afterwards; a `^` is left current only after a `*`/`/` chain or an exponent node |
| Parser.MultDivTail | include/MathCxx.hpp:280-291 | the operand it started with ends up at the bottom of a left spine of `*`/`/` nodes, and without `*` or `/` nothing is consumed; the left fold itself is established by `RoundTrip.ParseRender` |
| Parser.Unary | include/MathCxx.hpp:304-316 | on a token other than `-`, NUMBER or `(` it gives a null tree and consumes nothing |
| Parser.Primary | include/MathCxx.hpp:318-337 | NUMBER gives a literal and an empty buffer; any token but NUMBER and `(` gives a null tree with nothing consumed |
| Parser.Parse | include/MathCxx.hpp:341-345 | parsing from index 0 ends on a token no loop takes, and a digit-only buffer yields digit-only literals |
| RoundTrip.UnaryRT | include/MathCxx.hpp:304-337 | a rendered operand (literal, prefix minus, or parenthesised expression) parses back at the `unary` level to the same tree |
| RoundTrip.ChainRT | include/MathCxx.hpp:280-291 | a rendered `*`/`/` chain parses back through the `mult_div` loop |
| RoundTrip.MulRT | include/MathCxx.hpp:276-302 | a rendered term, exponent nodes included, parses back through `mult_div` |
| RoundTrip.AddRT | include/MathCxx.hpp:257-274 | a rendered sum or difference parses back through `plus_minus` |
| RoundTrip.CompareRT | include/MathCxx.hpp:237-254 | a rendered comparison parses back through `less_greater_equal` |
| RoundTrip.LogicRT | include/MathCxx.hpp:218-235 | a rendered `&&`/`\|\|` expression parses back through `and_or` |
| RoundTrip.ParseRender | include/MathCxx.hpp:212-345 | parsing the rendering of any well-formed tree, followed by any text that starts with a stop character, gives back that tree; with nothing after it the whole input is consumed and END is current |
| Evaluator.FromBool | include/MathCxx.hpp:133-140 | a bool converted back to a double is 1 for `true` and 0 for `false` |
| Evaluator.Truthy | include/MathCxx.hpp:139-140 | the conversion of a double to `bool` for `&&` and `\|\|`: true exactly when the value is unequal to 0 |
| Evaluator.TruthyFromBool | include/MathCxx.hpp:139-140 | the 0 or 1 a node computes converts back to the truth value it stands for |
| Evaluator.Apply | include/MathCxx.hpp:126-140 | every comparison arm yields 1 or 0, and 1 exactly when its comparison holds of the two operand values |
| Evaluator.Eval | include/MathCxx.hpp:125-189 | a tree without null children always computes a value; comparison and logical nodes compute 1 or 0 (which of the two is `ComparisonMeaning` and `LogicMeaning`) |
| Evaluator.ShortCircuit | include/MathCxx.hpp:139-140 | `&&` with a false left side and `\|\|` with a true one give 0 or 1 without looking at the right side, even a null one |
| Evaluator.ComparisonMeaning | include/MathCxx.hpp:133-138 | on null-free operands, each of the six comparison nodes computes 1 exactly when its comparison holds of the two operand values |
| Evaluator.LogicMeaning | include/MathCxx.hpp:139-140 | on null-free operands, `&&` computes 1 exactly when both operand values are nonzero and `\|\|` exactly when at least one is |
| Evaluator.UnaryMeaning | include/MathCxx.hpp:167-170 | a prefix node with operator MINUS computes its operand's value times -1, and one with any other operator computes 0 without touching its operand |
| Evaluator.ComparisonMirror | include/MathCxx.hpp:135-138 | `l > r` computes what `r < l` computes, and `l >= r` what `r <= l` computes |
| Evaluator.NotEqualComplement | include/MathCxx.hpp:133-134 | `!=` fails where `==` fails and gives 1 exactly where `==` gives 0 |
| Evaluator.LogicCommutes | include/MathCxx.hpp:139-140 | on null-free operands, swapping the operands of `&&` or `\|\|` does not change the result |
| Evaluator.DoubleNegation | include/MathCxx.hpp:167-170 | two prefix minus signs give back the operand's value when multiplying by -1 twice is the identity |
| Evaluator.Compute | include/MathCxx.hpp:341-347 | a null dereference only happens when the parsed tree has a null; the buffer handed on stays all digits |
| Evaluator.ComputeBlank | include/MathCxx.hpp:341-346 | empty or all-whitespace input parses to a null root and computes to a null dereference, with the buffer untouched |
| Evaluator.ComputeRender | include/MathCxx.hpp:341-346 | the printed form of a well-formed tree computes to that tree's value and leaves the buffer empty |
| Scenarios.ExpAfterChainParse | include/MathCxx.hpp:276-301 | for any input lexing as NUMBER `*` NUMBER `^`, the parse stops at the `^` with the product as its tree |
| Scenarios.ExpAfterChain | include/MathCxx.hpp:276-301 | `2*3^4` parses to `2*3` and leaves `^` current |
| Scenarios.LogicParse | include/MathCxx.hpp:218-235 | for any input lexing as NUMBER, `&&` or `\|\|`, NUMBER, END, the tree is that logical node over the two literals |
| Scenarios.AmpPipeIsOr | include/MathCxx.hpp:81-82 | `1&\|0` parses as `1 \|\| 0`: the `&` case falls through to the `\|` case, which takes the `\|` as its second character |
| Scenarios.CompareParse | include/MathCxx.hpp:237-254 | for any input lexing as NUMBER, a comparison, NUMBER, END, the tree is that comparison of the two literals |
| Scenarios.LoneEqualsIsGreater | include/MathCxx.hpp:73-76 | `1=2` parses as `1 > 2` |
| Scenarios.UnclosedParse | include/MathCxx.hpp:329-334 | for any input that opens with `(` and then lexes as NUMBER `+` NUMBER END, the parse gives the sum |
| Scenarios.ClosedParse | include/MathCxx.hpp:329-334 | for any input that opens with `(` and then lexes as NUMBER `+` NUMBER `)` END, the parse gives the same sum |
| Scenarios.UncheckedClose | include/MathCxx.hpp:329-334 | `(1+2` and `(1+2)` parse to the same tree |
| Scenarios.JoinedRunsParse | include/MathCxx.hpp:320-324 | two NUMBER tokens in a row become one literal whose digits are both runs joined |
| Scenarios.DigitRunsJoin | include/MathCxx.hpp:320-324 | `12 34` parses to the literal `1234` and leaves NUMBER current |
| Scenarios.DanglingAndParse | include/MathCxx.hpp:218-235 | for any input lexing as NUMBER `&&` END, the right operand is null |
| Scenarios.DanglingAnd | include/MathCxx.hpp:336-346 | `0&&` builds a tree with a null child and still computes 0, because `&&` short-circuits |
| Scenarios.LeftFold | include/MathCxx.hpp:257-274 | `10-3-2` parses to `(10-3)-2` |
| Scenarios.ExpNestsRight | include/MathCxx.hpp:293-299 | `2^3^4` parses to `2^(3^4)` |
| Scenarios.ExpTakesProduct | include/MathCxx.hpp:293-299 | `2^3*4` parses to `2^(3*4)` |
| Scenarios.MinusNests | include/MathCxx.hpp:304-313 | `--5` parses to two nested prefix minus nodes |
| Scenarios.Ladder | include/MathCxx.hpp:237-302 | in `1+2*3<4`, `*` binds tighter than `+` and `+` tighter than `<` |
| Scenarios.TrailingIgnored | include/MathCxx.hpp:341-346 | `1+2)*3` parses to `1+2`; the tokens after the stray `)` are never read |

## Left out

- Floating point. Numbers are an abstract type `V` with the operations
  `compute` uses, passed in as an `Arith` record. This leaves out `std::stod`,
  IEEE `* / + -`, double comparisons, and `std::pow` with its `(int)`
  truncation, whose out-of-range cases are undefined behaviour in C++.
- `std::stod` throwing `out_of_range` on a digit run too large for a double
  is not modelled, because `literal` is a total function.
- `print`, `printf` and `to_str` are left out. They write debug output to
  stdout and do not affect parsing or evaluation.
- Memory management is left out: `new`, the destructors and the leaked
  global `AST` have no effect on results beyond the tree itself.
- The order in which the two operands of a `Calc` node are computed is
  unspecified in C++. Evaluation is pure here, so only whether a null is
  reached matters, and that does not depend on the order.
- The undefined behaviour of calling `compute` through a null pointer is
  modelled as the outcome `NullDereference`. The model does not say what the
  C++ program would do next.
- `index` is a 32-bit `unsigned`. Inputs longer than 2^32 - 1 characters,
  where it would wrap, are not modelled.
- The value of `cur_token` before the first fetch is never read. It is set to
  EXP, the zero-initialised global.
- Eval: its contract says nothing about the value of a `^`, `*`, `/`, `+` or
  `-` node beyond its body applying the abstract operation, because those
  values are doubles. Which comparison or logical node yields 1 is stated by
  `ComparisonMeaning` and `LogicMeaning`, and prefix nodes by `UnaryMeaning`.
- Characters other than bytes: the C++ lexer reads the bytes of the string,
  so a multi-byte UTF-8 character is one UNDEFINED token per byte. The model
  treats each `char` as one byte and says nothing about inputs holding a
  character of 256 or above.
- Recursion depth: deeply nested `(` or `-` overflow the C++ call stack.
  The model has no stack bound and parses every input to the end.
