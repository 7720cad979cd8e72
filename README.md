# Interpreter_LOOP in Dafny

This project models, in Dafny, the three stages of the `InterpreterAlpha` package of
Interpreter_LOOP and proves properties of that model. The stages are:

- **Lexer** (`Lexer.java`): a cursor over the program text that hands out one token per call of
  `get_next_token`. It skips blanks and `{ … }` comments. It reads words and integer literals by
  maximal munch, and looks words up in a keyword table (`VAR`, `DIV`, `INTEGER`, `LOOP`, `DO`, `END`).
- **Parser** (`Parser.java`): a recursive-descent parser with one token of lookahead
  (`current_token`), advanced by `eat`. It builds the typed tree Program / Block / VarDecl / Compound /
  Assign / ForStatement / BinOp / UnaryOp / Num / Var / NoOp.
- **Interpreter** (`InterpreterAlpha.java`): a visitor that evaluates expressions over Java `int`s. It
  runs assignments, programs and a count-style loop against one mutable global scope, `GLOBAL_SCOPE`.

The three files belong to two variants of the language and do not fit together:
- the parser asks for token kinds (PROGRAM, BEGIN, FOR, TO, COMMA, COLON, DOT, REAL, REAL_CONST,
  FLOAT_DIV, INTEGER_DIV) that this lexer never produces;
- the interpreter reads node fields (`Program.statement_list`, `ForStatement.statements`) that the
  parser's node classes lack.

So each stage is modelled on its own terms:
- `Tokens.TokenKind` is the union of both sets of kinds.
- The parser reads from a `Grammar.Stream`: a list of tokens, followed by EOF for ever or by a
  lexical error, which stands for the lexer of the other variant.
- The interpreter has its own tree: `Semantics.Stmt` with `Program(statements)` and
  `Loop(variable, statements)`, and `Semantics.Expr`.

Each stage follows the same pattern. Pure specification functions state what the stage computes:
`Lexing.NextToken`, the rule functions of `Grammar`, and `Semantics.Eval` / `Semantics.Exec`.
Imperative classes keep the source's mutable state and are proved against those functions:
- `Lexing.Lexer` (`pos`, `currentChar`);
- `Parsing.Parser` (`next`, `currentToken`);
- `Interpreting.Interpreter` (`globalScope`).

Lemmas then state the promised properties about the specification functions.

Files:
- `results.dfy`: Result, Outcome and Option.
- `tokens.dfy`: token kinds and tokens.
- `lexer.dfy`: the lexer.
- `ast.dfy`: the parser's tree.
- `grammar.dfy`: the rule functions.
- `parser.dfy`: the `Parser` class.
- `grammar_facts.dfy`: parser properties, rule by rule.
- `program_facts.dfy`: printing a program and parsing it back.
- `javaint.dfy`: Java `int` arithmetic and `Integer.parseInt`.
- `semantics.dfy`: the interpreter's tree and its evaluation.
- `semantics_facts.dfy`: interpreter properties.
- `interpreter.dfy`: the `Interpreter` class.
- `findings.dfy`: the loop counter as written.

Java `int` arithmetic is modelled exactly:
- values are `JavaInt.Int32`;
- `+`, `-`, `*` and unary `-` wrap modulo 2^32;
- `DIV` is Java's `/`: it truncates toward zero, and `MIN_VALUE / -1` wraps back to `MIN_VALUE`.

## Model

| member | source | states |
|---|---|---|
| Lexing.KeywordOrId | src/InterpreterAlpha/Lexer.java:45-55 | a word in the keyword table gets that keyword's token (`END` carries lexeme "DO"); any other word is an ID whose lexeme is the word |
| Lexing.DigitRunEnd | src/InterpreterAlpha/Lexer.java:78-85 | the scan of digits stops at the end of the maximal digit run: all characters before it are digits, the one at it is not |
| Lexing.IdRunEnd | src/InterpreterAlpha/Lexer.java:87-94 | the scan of a word stops at the end of the maximal run of letters and digits |
| Lexing.CommentClose | src/InterpreterAlpha/Lexer.java:109-111 | finds the first `}` at or after a position, or reports that there is none |
| Lexing.NextToken | src/InterpreterAlpha/Lexer.java:98-164 | get_next_token never moves the cursor back; every token but EOF consumes at least one character; EOF has lexeme "" and is returned only where current_char is '\0' |
| Lexing.CommentIsSkipped | src/InterpreterAlpha/Lexer.java:107-114 | a comment ends at its first `}`, and the next token is the one after it |
| Lexing.SpaceIsSkipped | src/InterpreterAlpha/Lexer.java:101-104 | a space, tab or newline produces no token |
| Lexing.ClosedCommentIsSkipped | src/InterpreterAlpha/Lexer.java:107-114 | a comment closed at its first `}` is skipped up to the character after it |
| Lexing.BlankIsSkipped | src/InterpreterAlpha/Lexer.java:99-114 | any stretch of blanks and comments before the cursor yields no token: the next token is the one after the stretch |
| Lexing.LeadingCommentIsSkipped | src/InterpreterAlpha/Lexer.java:107-114 | a comment at the start of a stretch is skipped as a whole |
| Lexing.UnclosedCommentFails | src/InterpreterAlpha/Lexer.java:109-111 | a `{` with no `}` after it is an error |
| Lexing.WordAtLetter | src/InterpreterAlpha/Lexer.java:116-118 | at a letter the lexer reads the word there and looks it up in the keyword table |
| Lexing.WordRunEnd | src/InterpreterAlpha/Lexer.java:87-94 | the scan of a run of letters and digits w stops right after w |
| Lexing.WordToken | src/InterpreterAlpha/Lexer.java:87-94 | maximal munch on words: a letter-initial run w not followed by a letter or digit yields KeywordOrId(w), cursor right after w |
| Lexing.IntegerLiteralToken | src/InterpreterAlpha/Lexer.java:78-85 | maximal munch on numbers: a digit run d not followed by a digit yields INTEGER_CONST with lexeme exactly d, cursor right after d |
| Lexing.OperatorTokens | src/InterpreterAlpha/Lexer.java:124-159 | `:` yields ASSIGN ":=" and consumes two characters whatever the second is; each of `; + - * ( )` yields its kind and consumes one |
| Lexing.InvalidCharacterFails | src/InterpreterAlpha/Lexer.java:161 | any other non-blank character is an "Invalid character!" error |
| Lexing.EofIsSticky | src/InterpreterAlpha/Lexer.java:99-163 | once EOF is returned, every later call returns EOF again |
| Lexing.Lexer.constructor | src/InterpreterAlpha/Lexer.java:57-61 | the cursor starts at 0 with current_char the first character |
| Lexing.Lexer.Advance | src/InterpreterAlpha/Lexer.java:68-75 | pos goes up by exactly one, and current_char is the character at pos, or '\0' past the end |
| Lexing.Lexer.Number | src/InterpreterAlpha/Lexer.java:78-85 | the cursor ends at the end of the digit run, and the token is INTEGER_CONST with that run as lexeme |
| Lexing.Lexer.Id | src/InterpreterAlpha/Lexer.java:87-94 | the cursor ends at the end of the word, and the token is KeywordOrId of it |
| Lexing.Lexer.GetNextToken | src/InterpreterAlpha/Lexer.java:98-164 | returns exactly the token (or error) NextToken gives and leaves the cursor where NextToken says |
| Lexing.Lexer.SkipComment | src/InterpreterAlpha/Lexer.java:107-114 | succeeds iff the comment is closed, and then leaves the cursor exactly one past the first `}`, with the same next token; otherwise the text has no token there but UnterminatedComment |
| Lexing.Lexer.ScanToken | src/InterpreterAlpha/Lexer.java:116-161 | the token-producing branches give exactly what NextToken gives |
| JavaInt.Wrap | src/InterpreterAlpha/InterpreterAlpha.java:132-136 | int arithmetic: the result is congruent to the exact value modulo 2^32 and equal to it when it fits |
| JavaInt.WrapUnique | src/InterpreterAlpha/InterpreterAlpha.java:132-136 | the wrapped int is the only int congruent to the exact value |
| JavaInt.Negate | src/InterpreterAlpha/InterpreterAlpha.java:154 | int unary minus: every value but MIN_VALUE is negated exactly, MIN_VALUE negates to itself |
| JavaInt.WrapAdd | src/InterpreterAlpha/InterpreterAlpha.java:132 | adding to a wrapped value wraps like adding first |
| JavaInt.TruncRem | src/InterpreterAlpha/InterpreterAlpha.java:138 | the remainder of Java division is smaller than the divisor in magnitude and has the dividend's sign |
| JavaInt.TruncDiv | src/InterpreterAlpha/InterpreterAlpha.java:138 | quotient and remainder recompose the dividend |
| JavaInt.TruncDivUnique | src/InterpreterAlpha/InterpreterAlpha.java:138 | truncating division is the only quotient with such a remainder |
| JavaInt.Quotient | src/InterpreterAlpha/InterpreterAlpha.java:138 | Java's `/`: the truncated quotient whenever that fits an int, and MIN_VALUE / -1 gives MIN_VALUE |
| JavaInt.QuotientBounds | src/InterpreterAlpha/InterpreterAlpha.java:138 | the exact quotient of two ints is an int, except MIN_VALUE / -1, which is MAX_VALUE + 1 |
| JavaInt.DigitChar | src/InterpreterAlpha/Parser.java:271 | the character of a digit value is a decimal digit with that value |
| JavaInt.Decimal | src/InterpreterAlpha/Parser.java:271 | the decimal numeral of n is a non-empty digit string |
| JavaInt.DecimalValue | src/InterpreterAlpha/Parser.java:271 | the numeral of n has value n |
| JavaInt.ParseDecimal | src/InterpreterAlpha/Parser.java:271 | Integer.parseInt reads back n exactly when n fits an int, and fails above MAX_VALUE |
| JavaInt.ParseNegativeDecimal | src/InterpreterAlpha/Parser.java:271 | Integer.parseInt of "-" and the numeral of n gives -n down to MIN_VALUE and fails below |
| JavaInt.ParsePlusDecimal | src/InterpreterAlpha/Parser.java:271 | Integer.parseInt accepts a leading `+`: "+" and the numeral of n reads n when it fits |
| JavaInt.ParseNeedsDigits | src/InterpreterAlpha/Parser.java:271 | the empty string, "-" and "+" are NumberFormatException, and so is any text with a non-digit after its first character |
| JavaInt.ParseNumeral | src/InterpreterAlpha/Parser.java:271 | Integer.parseInt reads every int back from its shortest numeral, MIN_VALUE included |
| Grammar.Eat | src/InterpreterAlpha/Parser.java:144-150 | eat advances to the next fetched token iff the current kind is k; a mismatch is "Invalid syntax!" |
| Grammar.ParseVariable | src/InterpreterAlpha/Parser.java:284-288 | a variable is an ID and its node holds that token |
| Grammar.ParseFactor | src/InterpreterAlpha/Parser.java:300-323 | a factor consumes at least one token |
| Grammar.ParseTerm | src/InterpreterAlpha/Parser.java:326-343 | a term consumes at least one token and stops only at a token that is not MUL, INTEGER_DIV or FLOAT_DIV |
| Grammar.TermLoop | src/InterpreterAlpha/Parser.java:329-341 | the term loop ends only at a lookahead that is not MUL, INTEGER_DIV or FLOAT_DIV, and keeps the nodes built so far |
| Grammar.ParseExpr | src/InterpreterAlpha/Parser.java:346-359 | an expression stops only at a token that is neither an adding nor a multiplying operator |
| Grammar.ExprLoop | src/InterpreterAlpha/Parser.java:349-357 | the expression loop ends only at a lookahead that is neither an adding nor a multiplying operator |
| Grammar.ParseAssignStatement | src/InterpreterAlpha/Parser.java:275-281 | an assignment starts at an ID, its target is that variable and its operator an ASSIGN token, and it stops at a token that continues no expression |
| Grammar.ParseCompoundStatement | src/InterpreterAlpha/Parser.java:216-224 | a compound statement starts at BEGIN and holds at least one statement |
| Grammar.ParseStatementList | src/InterpreterAlpha/Parser.java:228-240 | a statement list holds at least one statement and is followed by neither SEMI nor ID |
| Grammar.StatementLoop | src/InterpreterAlpha/Parser.java:232-235 | statements are appended in source order, and the loop stops at the first token that is not SEMI |
| Grammar.ParseStatement | src/InterpreterAlpha/Parser.java:246-257 | a statement starting with anything but BEGIN, ID or FOR is NoOp and consumes nothing |
| Grammar.ParseForRange | src/InterpreterAlpha/Parser.java:263-268 | the bounds part of for_statement consumes at least one token |
| Grammar.ParseForHead | src/InterpreterAlpha/Parser.java:260-268 | the head of for_statement consumes at least one token |
| Grammar.ParseForStatement | src/InterpreterAlpha/Parser.java:260-272 | a for statement consumes at least one token |
| Grammar.ParseTypeSpec | src/InterpreterAlpha/Parser.java:206-213 | a type is INTEGER or REAL and its node holds that token |
| Grammar.Declare | src/InterpreterAlpha/Parser.java:199-201 | one VarDecl per name, in order, all with the same type node |
| Grammar.IdList | src/InterpreterAlpha/Parser.java:191-195 | the names are collected in order, each an ID, until the lookahead is not COMMA |
| Grammar.ParseVariableDeclaration | src/InterpreterAlpha/Parser.java:186-203 | `a, b, … : T` gives at least one VarDecl, the first for the current ID, all IDs and all sharing one type node |
| Grammar.ParseDeclarations | src/InterpreterAlpha/Parser.java:172-183 | without VAR there are no declarations and nothing is consumed |
| Grammar.DeclarationLoop | src/InterpreterAlpha/Parser.java:176-180 | declarations are concatenated in order until the lookahead is not an ID |
| Grammar.ParseBlock | src/InterpreterAlpha/Parser.java:164-168 | a block starts at VAR or BEGIN, declares nothing without VAR, and its body holds at least one statement |
| Grammar.ParseProgramHead | src/InterpreterAlpha/Parser.java:154-157 | PROGRAM, the name, SEMI: a success started at PROGRAM and consumed input |
| Grammar.ParseProgram | src/InterpreterAlpha/Parser.java:153-161 | a program starts at PROGRAM and its body holds at least one statement |
| Grammar.Parse | src/InterpreterAlpha/Parser.java:361-366 | parse succeeds iff program succeeds and is followed by EOF, and then returns program's tree |
| GrammarFacts.FactorLeaf | src/InterpreterAlpha/Parser.java:309-321 | an ID, INTEGER_CONST or REAL_CONST factor is a Var or Num leaf holding the token |
| GrammarFacts.FactorUnary | src/InterpreterAlpha/Parser.java:303-308 | unary `+`/`-` wraps the factor that follows, right-recursively |
| GrammarFacts.FactorParens | src/InterpreterAlpha/Parser.java:315-319 | a parenthesised expression is the inner node itself, and needs the closing RPAREN |
| GrammarFacts.FactorNeedsCloseParen | src/InterpreterAlpha/Parser.java:315-319 | an LPAREN expression not followed by RPAREN is "Invalid syntax!" |
| GrammarFacts.TermStart | src/InterpreterAlpha/Parser.java:327 | a term starts with one factor and continues in the loop |
| GrammarFacts.TermStep | src/InterpreterAlpha/Parser.java:332-340 | each multiplying operator makes a BinOp of the tree so far (left) and the next factor (right) |
| GrammarFacts.TermStop | src/InterpreterAlpha/Parser.java:329-331 | the term loop returns the tree so far at any other token |
| GrammarFacts.ExprStart | src/InterpreterAlpha/Parser.java:347 | an expression starts with one term and continues in the loop |
| GrammarFacts.ExprStep | src/InterpreterAlpha/Parser.java:350-356 | each `+`/`-` makes a BinOp of the tree so far (left) and the next term (right) |
| GrammarFacts.ExprStop | src/InterpreterAlpha/Parser.java:349 | the expression loop returns the tree so far at any other token |
| GrammarFacts.ProductBetween | src/InterpreterAlpha/Parser.java:326-359 | factor, multiplying operator, factor, then an end parses to one BinOp |
| GrammarFacts.SumBetween | src/InterpreterAlpha/Parser.java:326-359 | factor, adding operator, factor, then an end parses to one BinOp |
| GrammarFacts.FoldLeftLast | src/InterpreterAlpha/Parser.java:329-357 | in a left fold the last operator is applied last, to the fold of everything before it |
| GrammarFacts.TermLoopFolds | src/InterpreterAlpha/Parser.java:329-341 | over any chain of multiplying operators and factors, the term loop builds the left fold ((x op1 f1) op2 f2) … and stops right after the chain |
| GrammarFacts.TermFolds | src/InterpreterAlpha/Parser.java:326-343 | a term is the left fold of its factors |
| GrammarFacts.ExprLoopFolds | src/InterpreterAlpha/Parser.java:349-357 | over any chain of adding operators and terms, the expression loop builds the left fold and stops right after the chain |
| GrammarFacts.ExprFolds | src/InterpreterAlpha/Parser.java:346-359 | an expression is the left fold of its terms |
| GrammarFacts.ExprTokens | src/InterpreterAlpha/Parser.java:300-359 | the printed tokens of an expression are non-empty |
| GrammarFacts.AfterConcat | src/InterpreterAlpha/Parser.java:144-150 | eating a + b is eating a, then b |
| GrammarFacts.AfterOne | src/InterpreterAlpha/Parser.java:144-150 | eating one token needs it as the lookahead and is one eat |
| GrammarFacts.FactorRoundTrip | src/InterpreterAlpha/Parser.java:300-323 | round trip: factor parses the fully parenthesised tokens of any expression tree back to that tree |
| GrammarFacts.BinOpRoundTrip | src/InterpreterAlpha/Parser.java:315-319 | round trip for a parenthesised binary operation |
| GrammarFacts.BinOpLayout | src/InterpreterAlpha/Parser.java:315-319 | the tokens of `(l op r)` split into LPAREN, l, op, r, RPAREN |
| GrammarFacts.ParenthesisedBinOp | src/InterpreterAlpha/Parser.java:315-319 | `( factor op factor )` is a factor whose tree is that BinOp |
| GrammarFacts.ExprRoundTrip | src/InterpreterAlpha/Parser.java:346-359 | round trip: expr parses the printed tokens of any expression tree back to that tree |
| GrammarFacts.AssignStep | src/InterpreterAlpha/Parser.java:275-281 | `ID := expr` is an Assign of that variable, the ASSIGN token and the expression |
| GrammarFacts.AssignNeedsBecomes | src/InterpreterAlpha/Parser.java:275-281 | an ID not followed by ASSIGN is "Invalid syntax!" |
| GrammarFacts.CompoundRule | src/InterpreterAlpha/Parser.java:216-224 | a compound statement is the node of the statement list between BEGIN and END; a missing END is "Invalid syntax!" |
| GrammarFacts.StatementCompound | src/InterpreterAlpha/Parser.java:246-249 | a statement at BEGIN is the compound statement there |
| GrammarFacts.ListStart | src/InterpreterAlpha/Parser.java:228-240 | a statement list is the first statement then the loop, an ID right after it being an error |
| GrammarFacts.ListStep | src/InterpreterAlpha/Parser.java:232-235 | each SEMI appends the next statement |
| GrammarFacts.ListStop | src/InterpreterAlpha/Parser.java:232 | the list ends at any token other than SEMI |
| GrammarFacts.EmptyCompound | src/InterpreterAlpha/Parser.java:216-224 | BEGIN END is a Compound holding one NoOp |
| GrammarFacts.ForRule | src/InterpreterAlpha/Parser.java:260-272 | FOR ID := c1 TO c2 DO compound gives ForStatement(compound, parseInt(c2), parseInt(c1), var): end first, start second; a bad bound is NumberFormat |
| GrammarFacts.ForRangeRule | src/InterpreterAlpha/Parser.java:263-268 | INTEGER_CONST TO INTEGER_CONST DO hands on the start and end tokens |
| GrammarFacts.IdStep | src/InterpreterAlpha/Parser.java:191-195 | each `, ID` appends one name |
| GrammarFacts.IdStop | src/InterpreterAlpha/Parser.java:191 | the name list ends at any token other than COMMA |
| GrammarFacts.SingleDeclaration | src/InterpreterAlpha/Parser.java:186-203 | `a : T` with T INTEGER or REAL is one VarDecl of a with the type node of T |
| GrammarFacts.DeclarationsStart | src/InterpreterAlpha/Parser.java:172-176 | after VAR the declarations loop starts with none |
| GrammarFacts.DeclarationStep | src/InterpreterAlpha/Parser.java:176-180 | each variable_declaration followed by SEMI appends its VarDecls in order |
| GrammarFacts.DeclarationNeedsSemicolon | src/InterpreterAlpha/Parser.java:176-180 | a variable_declaration not followed by SEMI is "Invalid syntax!" |
| GrammarFacts.DeclarationStop | src/InterpreterAlpha/Parser.java:176 | the declarations loop ends at any token other than ID |
| GrammarFacts.BlockRule | src/InterpreterAlpha/Parser.java:164-168 | a block is the declarations, then the compound statement right after them, failing as that does |
| GrammarFacts.ProgramRule | src/InterpreterAlpha/Parser.java:153-161 | the program's name is the lexeme of the ID after PROGRAM, and a block not followed by DOT is "Invalid syntax!" |
| GrammarFacts.VariableDeclarationRule | src/InterpreterAlpha/Parser.java:186-203 | the names, COLON and INTEGER give one VarDecl per name with that type |
| GrammarFacts.Next | src/InterpreterAlpha/Parser.java:144-150 | when the stream delivers a token list, each of its tokens is the lookahead in turn and is eaten by one eat |
| GrammarFacts.LeafFactor | src/InterpreterAlpha/Parser.java:309-321 | an ID or integer is a leaf factor |
| GrammarFacts.LeafTerm | src/InterpreterAlpha/Parser.java:326-343 | a leaf not followed by a multiplying operator is a whole term |
| GrammarFacts.LeafExpr | src/InterpreterAlpha/Parser.java:346-359 | a leaf followed by no operator is a whole expression |
| GrammarFacts.SubtractionAssociatesLeft | src/InterpreterAlpha/Parser.java:346-359 | `a - b - c` parses to BinOp(BinOp(a, -, b), -, c) |
| GrammarFacts.MultiplicationBindsTighter | src/InterpreterAlpha/Parser.java:326-359 | `a + b * c` parses to BinOp(a, +, BinOp(b, *, c)) |
| GrammarFacts.UnaryOperatorsNest | src/InterpreterAlpha/Parser.java:303-308 | `- - a` parses to UnaryOp(-, UnaryOp(-, a)) |
| GrammarFacts.MissingSemicolonIsAnError | src/InterpreterAlpha/Parser.java:237-238 | `a := 1` followed directly by an ID is "Invalid syntax!" |
| GrammarFacts.LeadingSemicolonGivesEmptyStatement | src/InterpreterAlpha/Parser.java:246-257 | `; a := 1` is the list [NoOp, Assign] |
| GrammarFacts.DeclarationSharesType | src/InterpreterAlpha/Parser.java:186-203 | `a, b : INTEGER` gives [VarDecl(a, INTEGER), VarDecl(b, INTEGER)] in source order |
| GrammarFacts.ForStatementBounds | src/InterpreterAlpha/Parser.java:260-272 | the first constant is start_point and the second end_point, each through parseInt |
| GrammarFacts.ForStatementWithDecimalBounds | src/InterpreterAlpha/Parser.java:260-272 | `FOR i := 1 TO 10 DO BEGIN END` has end_point 10 and start_point 1 |
| GrammarFacts.ForStatementBoundOutOfRange | src/InterpreterAlpha/Parser.java:271 | a bound above MAX_VALUE makes the statement fail with NumberFormatException |
| ProgramFacts.Between | src/InterpreterAlpha/Parser.java:144-150 | eating a printed part a + b passes through the state after a |
| ProgramFacts.FirstToken | src/InterpreterAlpha/Parser.java:144-150 | the first printed token is the lookahead and is eaten first |
| ProgramFacts.StatementRoundTrip | src/InterpreterAlpha/Parser.java:246-257 | round trip: statement parses the printed tokens of any statement tree back to that tree, when SEMI or END follows |
| ProgramFacts.AssignRoundTrip | src/InterpreterAlpha/Parser.java:275-281 | round trip for an assignment |
| ProgramFacts.ForRoundTrip | src/InterpreterAlpha/Parser.java:260-272 | round trip for a for statement, the bounds printed as numerals and read back by parseInt |
| ProgramFacts.CompoundRoundTrip | src/InterpreterAlpha/Parser.java:216-224 | round trip for a compound statement, nested ones included |
| ProgramFacts.CompoundLayout | src/InterpreterAlpha/Parser.java:216-224 | the printed tokens of a compound statement split into BEGIN, the first child, the rest, and END |
| ProgramFacts.RestStartsWithSemi | src/InterpreterAlpha/Parser.java:232-235 | between two printed children the lookahead is SEMI |
| ProgramFacts.LoopRoundTrip | src/InterpreterAlpha/Parser.java:228-240 | the statement_list loop reads the printed children one per SEMI, in order, and stops at END |
| ProgramFacts.LoopHead | src/InterpreterAlpha/Parser.java:231-234 | one turn of the loop eats SEMI and reads back the next printed child |
| ProgramFacts.LoopEnd | src/InterpreterAlpha/Parser.java:231 | after the last printed child the lookahead is END and the loop stops with what it has |
| ProgramFacts.DeclarationLayout | src/InterpreterAlpha/Parser.java:186-203 | the printed tokens of a declaration are ID, COLON, the type, SEMI |
| ProgramFacts.DeclarationHead | src/InterpreterAlpha/Parser.java:176-180 | one printed declaration is one pass of the declarations loop |
| ProgramFacts.DeclarationsRoundTrip | src/InterpreterAlpha/Parser.java:176-180 | round trip: the declarations loop reads back every printed declaration in order |
| ProgramFacts.BlockRoundTrip | src/InterpreterAlpha/Parser.java:164-168 | round trip for a block, with or without VAR |
| ProgramFacts.ProgramRoundTrip | src/InterpreterAlpha/Parser.java:153-161 | round trip for a program: its name and block come back |
| ProgramFacts.Delivers | src/InterpreterAlpha/Parser.java:135-150 | a stream holding a token list hands its tokens out one per eat |
| ProgramFacts.ParseStreamRoundTrip | src/InterpreterAlpha/Parser.java:361-366 | the parser reads back every program tree it can build from the tokens printed for it, followed by EOF |
| Parsing.Parser.Init | src/InterpreterAlpha/Parser.java:135-138 | the parser starts with the first fetched token as current_token |
| Parsing.Parser.Create | src/InterpreterAlpha/Parser.java:135-138 | constructing a parser fetches the first token, or fails with the lexer's error |
| Parsing.Parser.Eat | src/InterpreterAlpha/Parser.java:144-150 | the method changes current_token exactly as Grammar.Eat says, or fails with its error |
| Parsing.Parser.Variable | src/InterpreterAlpha/Parser.java:284-288 | result and final state are those of ParseVariable |
| Parsing.Parser.Factor | src/InterpreterAlpha/Parser.java:300-323 | result and final state are those of ParseFactor |
| Parsing.Parser.Term | src/InterpreterAlpha/Parser.java:326-343 | the while loop computes exactly ParseTerm |
| Parsing.Parser.Expr | src/InterpreterAlpha/Parser.java:346-359 | the while loop computes exactly ParseExpr |
| Parsing.Parser.Empty | src/InterpreterAlpha/Parser.java:290-292 | NoOp, nothing consumed |
| Parsing.Parser.AssignStatement | src/InterpreterAlpha/Parser.java:275-281 | result and final state are those of ParseAssignStatement |
| Parsing.Parser.CompoundStatement | src/InterpreterAlpha/Parser.java:216-224 | result and final state are those of ParseCompoundStatement |
| Parsing.Parser.StatementList | src/InterpreterAlpha/Parser.java:228-240 | the while loop computes exactly ParseStatementList |
| Parsing.Parser.Statement | src/InterpreterAlpha/Parser.java:246-257 | result and final state are those of ParseStatement |
| Parsing.Parser.ForStatement | src/InterpreterAlpha/Parser.java:260-272 | result and final state are those of ParseForStatement |
| Parsing.Parser.TypeSpec | src/InterpreterAlpha/Parser.java:206-213 | result and final state are those of ParseTypeSpec |
| Parsing.Parser.VariableDeclaration | src/InterpreterAlpha/Parser.java:186-203 | the two loops compute exactly ParseVariableDeclaration |
| Parsing.Parser.Declarations | src/InterpreterAlpha/Parser.java:172-183 | the while loop computes exactly ParseDeclarations |
| Parsing.Parser.Block | src/InterpreterAlpha/Parser.java:164-168 | result and final state are those of ParseBlock |
| Parsing.Parser.Program | src/InterpreterAlpha/Parser.java:153-161 | result and final state are those of ParseProgram |
| Parsing.Parser.Parse | src/InterpreterAlpha/Parser.java:361-366 | the result is exactly Grammar.Parse |
| Parsing.ParseInput | src/InterpreterAlpha/Parser.java:135-138 | constructing a parser over a stream and parsing gives exactly ParseStream |
| Semantics.Apply | src/InterpreterAlpha/InterpreterAlpha.java:130-141 | `+ - *` never fail and give the int congruent to the exact result; DIV fails exactly on a zero divisor and otherwise truncates |
| Semantics.Eval | src/InterpreterAlpha/InterpreterAlpha.java:129-176 | a value is only produced when every name read is bound; an unbound-variable error names a variable of the expression that is unbound; the only errors are an unbound name, division by zero and an incorrect operator |
| Semantics.Exec | src/InterpreterAlpha/InterpreterAlpha.java:14-33 | running a statement never raises "Have no tree to trace!"; that error belongs to interpret alone |
| Semantics.ExecSeq | src/InterpreterAlpha/InterpreterAlpha.java:107-111 | nor does running a statement list |
| Semantics.RunLoop | src/InterpreterAlpha/InterpreterAlpha.java:114-126 | nor do the passes of a loop |
| Semantics.Interpret | src/InterpreterAlpha/InterpreterAlpha.java:92-99 | interpret fails with "Have no tree to trace!" exactly when there is no tree |
| Interpreting.Interpreter.constructor | src/InterpreterAlpha/InterpreterAlpha.java:87-90 | the interpreter holds the tree and starts with an empty scope |
| Interpreting.Interpreter.Interpret | src/InterpreterAlpha/InterpreterAlpha.java:92-99 | no tree is "Have no tree to trace!" with the scope untouched; otherwise the run is exactly Exec of the tree |
| Interpreting.Interpreter.Visit | src/InterpreterAlpha/InterpreterAlpha.java:14-33 | dispatch: the outcome and new scope are exactly Exec of the node; Compound, Block and VarDecl have no visit function |
| Interpreting.Interpreter.VisitProgram | src/InterpreterAlpha/InterpreterAlpha.java:107-111 | the loop over the statements computes exactly ExecSeq, stopping at the first failure |
| Interpreting.Interpreter.VisitFor | src/InterpreterAlpha/InterpreterAlpha.java:114-126 | the nested loops compute exactly Exec of the Loop: the count is read once, an unbound one fails, the body runs max(0, n) times |
| Interpreting.Interpreter.VisitAssign | src/InterpreterAlpha/InterpreterAlpha.java:162-166 | on success the scope is the old one with the name bound to the value; on failure the scope is unchanged |
| SemanticsFacts.NegateTwice | src/InterpreterAlpha/InterpreterAlpha.java:155 | int negation twice is the identity, MIN_VALUE included |
| SemanticsFacts.AssignBindsOnlyItsTarget | src/InterpreterAlpha/InterpreterAlpha.java:162-166 | an assignment succeeds iff its right side evaluates; it then binds the target to that value (inserting or overwriting) and changes no other binding; a failure is the evaluation's error |
| SemanticsFacts.ExecFrame | src/InterpreterAlpha/InterpreterAlpha.java:14-33 | a statement keeps every binding it was given, binds only names it assigns, and leaves the value of every other name alone |
| SemanticsFacts.ExecSeqFrame | src/InterpreterAlpha/InterpreterAlpha.java:107-111 | the same for a statement list |
| SemanticsFacts.RunLoopFrame | src/InterpreterAlpha/InterpreterAlpha.java:120-123 | the same for any number of runs of a loop body |
| SemanticsFacts.InterpretBindsOnlyAssigned | src/InterpreterAlpha/InterpreterAlpha.java:92-99 | interpreting no tree fails; the final scope of a run holds only names the program assigns |
| SemanticsFacts.OperandsLeftToRight | src/InterpreterAlpha/InterpreterAlpha.java:129-142 | the operator is checked first ("Incorrect binary operator!"), then the left operand, then the right; the first error wins |
| SemanticsFacts.UnboundBeforeDivisionByZero | src/InterpreterAlpha/InterpreterAlpha.java:137-138 | `u + 1 DIV 0` reports the unbound `u`; `1 DIV 0` alone is a division by zero |
| SemanticsFacts.JavaArithmetic | src/InterpreterAlpha/InterpreterAlpha.java:131-138 | -7 DIV 2 = -3, 7 DIV -2 = -3, MAX_VALUE + 1 = MIN_VALUE, MIN_VALUE DIV -1 = MIN_VALUE |
| SemanticsFacts.DoubleNegation | src/InterpreterAlpha/InterpreterAlpha.java:150-159 | `- - e` evaluates to what `e` does, errors included; `+ e` as well |
| SemanticsFacts.EvalReadsOnlyFreeVars | src/InterpreterAlpha/InterpreterAlpha.java:169-176 | two scopes that agree on an expression's variables give it the same value or error |
| SemanticsFacts.ExecSeqAppend | src/InterpreterAlpha/InterpreterAlpha.java:108-109 | running a + b is running a then b on its scope; an error in a skips b |
| SemanticsFacts.Repeat | src/InterpreterAlpha/InterpreterAlpha.java:120-123 | the body written n times has n times its length |
| SemanticsFacts.LoopIsRepetition | src/InterpreterAlpha/InterpreterAlpha.java:120-123 | n runs of the body equal one run of the body repeated n times |
| SemanticsFacts.LoopRunsBodyCountTimes | src/InterpreterAlpha/InterpreterAlpha.java:114-126 | a loop runs its body max(0, n) times, n read on entry; a count of zero or below leaves the scope as it was |
| SemanticsFacts.AddOnesWraps | src/InterpreterAlpha/InterpreterAlpha.java:132 | adding one n times is adding n, wrapped |
| SemanticsFacts.ResetAndCountOnce | src/InterpreterAlpha/InterpreterAlpha.java:162-166 | one pass of x := 0; y := y + 1 |
| SemanticsFacts.ResetAndCount | src/InterpreterAlpha/InterpreterAlpha.java:120-123 | n passes of such a body add one to y n times |
| SemanticsFacts.CountIsReadOnce | src/InterpreterAlpha/InterpreterAlpha.java:114-126 | LOOP x DO x := 0; y := y + 1 END adds the entry value of x to y: assigning the loop variable does not change the trip count |
| SemanticsFacts.ProgramRunsInOrder | src/InterpreterAlpha/InterpreterAlpha.java:107-111 | a program runs its first statement on the empty scope, then the rest on what it left |
| LoopCounter.CounterValue | src/InterpreterAlpha/InterpreterAlpha.java:120 | as written, after k passes the int counter is 1 + k wrapped |
| LoopCounter.IncrementWrapped | src/InterpreterAlpha/InterpreterAlpha.java:120 | `tmp++` on a wrapped counter wraps like adding one first |
| LoopCounter.ExitsBelowMax | src/InterpreterAlpha/InterpreterAlpha.java:120 | as written, below MAX_VALUE the guard holds for exactly the first max(0, end_point) passes |
| LoopCounter.NeverExitsAtMax | src/InterpreterAlpha/InterpreterAlpha.java:120 | as written, with end_point = MAX_VALUE, the counter wraps to MIN_VALUE after MAX_VALUE passes and the guard never fails |

## Findings

| source | as written | input that shows it | evidently intended | confidence | as-written member | corrected member |
|---|---|---|---|---|---|---|
| src/InterpreterAlpha/InterpreterAlpha.java:120 | the loop counter `tmp` is an `int` compared with `tmp <= end_point` and incremented with `tmp++`, so for `end_point == Integer.MAX_VALUE` it wraps to `MIN_VALUE` and the guard never fails | a scope with `n = 2147483647` and a `LOOP n DO … END` statement: the loop does not terminate | the body runs `end_point` times, and not at all when `end_point < 1` | high, not executed | LoopCounter.NeverExitsAtMax | Interpreting.Interpreter.VisitFor |

The corrected `VisitFor` counts with an unbounded counter. Its contract, together with
`SemanticsFacts.LoopRunsBodyCountTimes`, proves that the body runs exactly `max(0, n)` times.
`LoopCounter.ExitsBelowMax` shows that this matches the code as written for every end point
below `MAX_VALUE`.

## Left out

- File I/O: `main`, the static `FileWriter` initialiser, `printTab` and `resultFile`. The model
  stops at the final scope that `printTab` would write out, and HashMap iteration order is not
  modelled.
- Real numbers: REAL, REAL_CONST and FLOAT_DIV exist only as token kinds and tree nodes. Nothing in
  the source evaluates them, so there is no floating-point arithmetic.
- There is no symbol table or static resolver: the source has none.
- Lexing.NextToken: an unclosed `{` is the error UnterminatedComment at once. In Java the loop
  at Lexer.java:109-111 keeps calling `advance`, which yields `'\0'` past the end while `pos` grows;
  after 2^31 - 1 calls the `int` position wraps to a negative value, the test at Lexer.java:69
  fails, and `charAt` throws StringIndexOutOfBoundsException. The model does not count those steps.
- Lexing.Lexer.constructor: requires non-empty text, because the Java constructor reads
  `charAt(0)` and throws on empty text.
- Character classes are ASCII: `isSpaceChar`, `isLetter`, `isDigit` and `isLetterOrDigit` are
  restricted to space, letters and digits. Unicode space separators and non-ASCII letters and
  digits are not modelled.
- JavaInt.ParseInt: accepts ASCII digits only. `Integer.parseInt` uses `Character.digit`, which
  also accepts other Unicode decimal digits; the lexer here never puts one in a token.
- Grammar.TermLoop: its contract says only where the loop stops; the tree it builds over a whole
  chain of operators is stated by GrammarFacts.TermLoopFolds.
- Grammar.ParseTerm: likewise, its tree is stated by GrammarFacts.TermFolds.
- Grammar.ExprLoop: its contract says only where the loop stops; the tree is stated by
  GrammarFacts.ExprLoopFolds.
- Grammar.ParseExpr: likewise, its tree is stated by GrammarFacts.ExprFolds.
- Grammar.ParseAssignStatement: the value it builds is stated by GrammarFacts.AssignStep and
  ProgramFacts.AssignRoundTrip.
- Grammar.ParseCompoundStatement: the children it builds are stated by GrammarFacts.CompoundRule
  and ProgramFacts.CompoundRoundTrip.
- Grammar.ParseBlock: the block it builds is stated by GrammarFacts.BlockRule and
  ProgramFacts.BlockRoundTrip.
- Grammar.ParseProgram: the program it builds is stated by GrammarFacts.ProgramRule and
  ProgramFacts.ProgramRoundTrip.
- The round trip in ProgramFacts prints each declaration on its own (`a : T ;`, never `a, b : T ;`)
  and does not cover REAL_CONST bounds or real literals in for statements, which parseInt rejects.
- The parser is not connected to this lexer, because it needs token kinds the lexer never produces.
  It reads a `Grammar.Stream` instead. A lexical error surfaces as a LexError when the parser fetches
  the token at the end of the stream, not at any particular earlier point.
- Values in the interpreter are `Int32`, not strings. The `Integer.toString` / `Integer.parseInt`
  round trip between visits is the identity on ints. A `Num` holds its value rather than a lexeme,
  so a `NumberFormatException` on a malformed or real literal is not modelled.
- The interpreter's tree is typed: statements (`Stmt`) and expressions (`Expr`) are separate. In
  Java, a bare expression node in a statement list would be evaluated and discarded, and a statement
  node on the right of an assignment would store `""`. Neither can be written in the model.
- Interpreting.Interpreter.Visit: on failure the contract says nothing about the scope. Java keeps
  the bindings made before the exception, but the exception ends the run, so nothing reads them.
- Interpreting.Interpreter.VisitFor: the counter is an unbounded integer. This is the corrected
  loop; the wrap-around of the Java `int` counter is modelled separately, see "Findings".
