/**
  The lexer of src/InterpreterAlpha/Lexer.java: a cursor (pos, currentChar)
  over the program text that hands out one token per call.

  The pure functions below (DigitRunEnd, IdRunEnd, CommentClose, NextToken)
  give the meaning of one call of get_next_token from a cursor position; the
  class Lexer keeps the source's mutable cursor and is proved to follow them.
  Java's Unicode character classes are approximated by ASCII ones.
*/
module Lexing {
  import opened Results
  import opened Tokens

  datatype LexError =
    | InvalidCharacter     // "Invalid character!"
    | UnterminatedComment  // a `{` with no later `}`: Java advances until its int position overflows and charAt throws

  /** The character the cursor shows once it is past the end of the text. */
  const NUL: char := '\0'

  /** Character.isSpaceChar (ASCII part: the space) or an explicit newline or tab. */
  predicate IsSpace(c: char) { c == ' ' || c == '\n' || c == '\t' }

  /** Character.isLetter, restricted to ASCII. */
  predicate IsLetter(c: char) { 'a' <= c <= 'z' || 'A' <= c <= 'Z' }

  /** Character.isDigit, restricted to ASCII. */
  predicate IsDigit(c: char) { '0' <= c <= '9' }

  /** Character.isLetterOrDigit, restricted to ASCII. */
  predicate IsLetterOrDigit(c: char) { IsLetter(c) || IsDigit(c) }

  /** What current_char holds when the cursor is at pos. */
  function CharAt(text: string, pos: nat): char {
    if pos < |text| then text[pos] else NUL
  }

  /** The reserved-word table built by initMap. */
  const ReservedKeywords: map<string, Token> := map[
    "VAR" := Token(VAR, "VAR"),
    "DIV" := Token(DIV, "DIV"),
    "INTEGER" := Token(INTEGER, "INTEGER"),
    "LOOP" := Token(LOOP, "LOOP"),
    "DO" := Token(DO, "DO"),
    "END" := Token(END, "DO")  // the table gives END the lexeme "DO"
  ]

  /** The token _id returns for a scanned word: its keyword, or an identifier. */
  function KeywordOrId(word: string): (t: Token)
    ensures t.kind == ID <==> word !in {"VAR", "DIV", "INTEGER", "LOOP", "DO", "END"}
    ensures t.kind == ID ==> t.lexeme == word
    ensures word == "VAR" ==> t.kind == VAR
    ensures word == "DIV" ==> t.kind == DIV
    ensures word == "INTEGER" ==> t.kind == INTEGER
    ensures word == "LOOP" ==> t.kind == LOOP
    ensures word == "DO" ==> t.kind == DO
    ensures word == "END" ==> t == Token(END, "DO")
    ensures word != "END" ==> t.lexeme == word
  {
    if word in ReservedKeywords then ReservedKeywords[word] else Token(ID, word)
  }

  /** The end of the maximal run of digits starting at p (the loop of number). */
  function DigitRunEnd(text: string, p: nat): (e: nat)
    decreases |text| - p
    ensures p <= e
    ensures p <= |text| ==> e <= |text|
    ensures p >= |text| ==> e == p
    ensures forall i :: p <= i < e ==> IsDigit(text[i])
    ensures e < |text| ==> !IsDigit(text[e])
  {
    if p < |text| && IsDigit(text[p]) then DigitRunEnd(text, p + 1) else p
  }

  /** The end of the maximal run of letters and digits starting at p (the loop of _id). */
  function IdRunEnd(text: string, p: nat): (e: nat)
    decreases |text| - p
    ensures p <= e
    ensures p <= |text| ==> e <= |text|
    ensures p >= |text| ==> e == p
    ensures forall i :: p <= i < e ==> IsLetterOrDigit(text[i])
    ensures e < |text| ==> !IsLetterOrDigit(text[e])
  {
    if p < |text| && IsLetterOrDigit(text[p]) then IdRunEnd(text, p + 1) else p
  }

  /** The index of the first `}` at or after p, if any (the comment loop). */
  function CommentClose(text: string, p: nat): (r: Option<nat>)
    decreases |text| - p
    ensures r.Some? ==> p <= r.value < |text| && text[r.value] == '}'
    ensures r.Some? ==> forall i :: p <= i < r.value ==> text[i] != '}'
    ensures r.None? ==> forall i :: p <= i < |text| ==> text[i] != '}'
  {
    if p >= |text| then None
    else if text[p] == '}' then Some(p)
    else CommentClose(text, p + 1)
  }

  /**
    One call of get_next_token with the cursor at p: the token and the cursor
    position afterwards, or the error.
  */
  function NextToken(text: string, p: nat): (r: Result<(Token, nat), LexError>)
    decreases |text| - p
    ensures r.Ok? ==> p <= r.value.1
    ensures r.Ok? && r.value.0.kind != EOF ==> p < |text| && p < r.value.1
    ensures r.Ok? && r.value.0.kind == EOF ==> r.value.0 == EofToken && CharAt(text, r.value.1) == NUL
  {
    var c := CharAt(text, p);
    if c == NUL then Ok((EofToken, p))
    else if IsSpace(c) then NextToken(text, p + 1)
    else if c == '{' then
      match CommentClose(text, p + 1)
      case None => Err(UnterminatedComment)
      case Some(j) => NextToken(text, j + 1)
    else if IsLetter(c) then
      var e := IdRunEnd(text, p);
      Ok((KeywordOrId(text[p..e]), e))
    else if IsDigit(c) then
      var e := DigitRunEnd(text, p);
      Ok((Token(INTEGER_CONST, text[p..e]), e))
    else if c == ':' then Ok((Token(ASSIGN, ":="), p + 2))
    else if c == ';' then Ok((Token(SEMI, ";"), p + 1))
    else if c == '+' then Ok((Token(PLUS, "+"), p + 1))
    else if c == '-' then Ok((Token(MINUS, "-"), p + 1))
    else if c == '*' then Ok((Token(MUL, "*"), p + 1))
    else if c == '(' then Ok((Token(LPAREN, "("), p + 1))
    else if c == ')' then Ok((Token(RPAREN, ")"), p + 1))
    else Err(InvalidCharacter)
  }

  /** A method's (result, final cursor) in the shape NextToken gives it. */
  function Scanned(r: Result<Token, LexError>, pos: nat): Result<(Token, nat), LexError> {
    match r
    case Ok(t) => Ok((t, pos))
    case Err(e) => Err(e)
  }

  /**
    Text the lexer produces no token for: spaces, tabs, newlines, and `{ … }`
    comments, each ended by its first `}`.
  */
  predicate Blank(s: string)
    decreases |s|
  {
    || s == []
    || (IsSpace(s[0]) && Blank(s[1..]))
    || (s[0] == '{' && CommentClose(s, 1).Some? && Blank(s[CommentClose(s, 1).value + 1..]))
  }

  // ---------------------------------------------------------------------------
  // Properties of get_next_token

  /** A comment whose first `}` is at index close is skipped as a whole. */
  lemma CommentIsSkipped(text: string, p: nat, close: nat)
    requires p < close < |text| && text[p] == '{' && text[close] == '}'
    requires forall i :: p < i < close ==> text[i] != '}'
    ensures NextToken(text, p) == NextToken(text, close + 1)
  {
    var c := CommentClose(text, p + 1);
    assert c.Some? ==> c.value >= close;
    assert c.Some? ==> c.value <= close;
  }

  /** A blank character under the cursor is skipped. */
  lemma SpaceIsSkipped(text: string, p: nat)
    requires p < |text| && IsSpace(text[p])
    ensures NextToken(text, p) == NextToken(text, p + 1)
  {
    assert CharAt(text, p) == text[p];
  }

  /** A comment opened at p and first closed at close is skipped up to close + 1. */
  lemma ClosedCommentIsSkipped(text: string, p: nat, close: nat)
    requires p < |text| && text[p] == '{'
    requires CommentClose(text, p + 1) == Some(close)
    ensures NextToken(text, p) == NextToken(text, close + 1)
  {
    assert CharAt(text, p) == '{';
  }

  /** Blank text before the cursor is skipped: it yields no token. */
  lemma {:induction false} BlankIsSkipped(text: string, p: nat, q: nat)
    requires p <= q <= |text|
    requires Blank(text[p..q])
    ensures NextToken(text, p) == NextToken(text, q)
    decreases q - p
  {
    var s := text[p..q];
    if s != [] {
      assert CharAt(text, p) == s[0];
      if IsSpace(s[0]) && Blank(s[1..]) {
        assert text[p + 1..q] == s[1..];
        BlankIsSkipped(text, p + 1, q);
      } else {
        var j := CommentClose(s, 1).value;
        LeadingCommentIsSkipped(text, p, q, j);
        assert text[p + j + 1..q] == s[j + 1..];
        BlankIsSkipped(text, p + j + 1, q);
      }
    }
  }

  /** The comment at the start of text[p..q], closed at offset j there, is skipped. */
  lemma LeadingCommentIsSkipped(text: string, p: nat, q: nat, j: nat)
    requires p <= q <= |text| && |text[p..q]| > 0 && text[p] == '{'
    requires CommentClose(text[p..q], 1) == Some(j)
    ensures NextToken(text, p) == NextToken(text, p + j + 1)
  {
    var s := text[p..q];
    assert forall i :: 1 <= i <= j ==> text[p + i] == s[i];
    CommentIsSkipped(text, p, p + j);
  }

  /** A `{` with no `}` after it is an error (Java would fail only once its int position overflows). */
  lemma UnclosedCommentFails(text: string, p: nat)
    requires p < |text| && text[p] == '{'
    requires forall i :: p < i < |text| ==> text[i] != '}'
    ensures NextToken(text, p) == Err(UnterminatedComment)
  {
    assert CommentClose(text, p + 1).None?;
  }

  /** At a letter, get_next_token reads a word (the dispatch to _id). */
  lemma WordAtLetter(text: string, p: nat)
    requires p < |text| && IsLetter(text[p])
    ensures NextToken(text, p) == Ok((KeywordOrId(text[p..IdRunEnd(text, p)]), IdRunEnd(text, p)))
  {
    assert CharAt(text, p) == text[p];
  }

  /** Where pre + w + rest holds the characters of w and of rest. */
  lemma ConcatParts(pre: string, w: string, rest: string)
    ensures |pre + w + rest| == |pre| + |w| + |rest|
    ensures forall i :: 0 <= i < |w| ==> (pre + w + rest)[|pre| + i] == w[i]
    ensures (pre + w + rest)[|pre|..|pre| + |w|] == w
    ensures rest != [] ==> (pre + w + rest)[|pre| + |w|] == rest[0]
  {
    var text := pre + w + rest;
    assert text[|pre|..|pre| + |w|] == w;
  }

  /** A run of letters and digits from p to q that nothing extends ends at q. */
  lemma IdRunEndAt(text: string, p: nat, q: nat)
    requires p <= q <= |text|
    requires forall i :: p <= i < q ==> IsLetterOrDigit(text[i])
    requires q == |text| || !IsLetterOrDigit(text[q])
    ensures IdRunEnd(text, p) == q
  {
  }

  /** A run of digits from p to q that nothing extends ends at q. */
  lemma DigitRunEndAt(text: string, p: nat, q: nat)
    requires p <= q <= |text|
    requires forall i :: p <= i < q ==> IsDigit(text[i])
    requires q == |text| || !IsDigit(text[q])
    ensures DigitRunEnd(text, p) == q
  {
  }

  /** The scan of a word stops exactly at its end. */
  lemma WordRunEnd(pre: string, w: string, rest: string)
    requires forall i :: 0 <= i < |w| ==> IsLetterOrDigit(w[i])
    requires rest == [] || !IsLetterOrDigit(rest[0])
    ensures IdRunEnd(pre + w + rest, |pre|) == |pre| + |w|
  {
    var text, p := pre + w + rest, |pre|;
    ConcatParts(pre, w, rest);
    forall i | p <= i < p + |w|
      ensures IsLetterOrDigit(text[i])
    {
      assert text[p + (i - p)] == w[i - p];
    }
    IdRunEndAt(text, p, p + |w|);
  }

  /**
    Maximal munch on words: a letter-initial run of letters and digits w that is
    not followed by a letter or digit yields KeywordOrId(w), and the cursor
    ends right after w.
  */
  lemma WordToken(pre: string, w: string, rest: string)
    requires |w| > 0 && IsLetter(w[0])
    requires forall i :: 0 <= i < |w| ==> IsLetterOrDigit(w[i])
    requires rest == [] || !IsLetterOrDigit(rest[0])
    ensures NextToken(pre + w + rest, |pre|) == Ok((KeywordOrId(w), |pre| + |w|))
  {
    var text, p := pre + w + rest, |pre|;
    ConcatParts(pre, w, rest);
    WordRunEnd(pre, w, rest);
    assert text[p + 0] == w[0];
    WordAtLetter(text, p);
  }

  /** The scan of a numeral stops exactly at its end. */
  lemma DigitsRunEnd(pre: string, d: string, rest: string)
    requires forall i :: 0 <= i < |d| ==> IsDigit(d[i])
    requires rest == [] || !IsDigit(rest[0])
    ensures DigitRunEnd(pre + d + rest, |pre|) == |pre| + |d|
  {
    var text, p := pre + d + rest, |pre|;
    ConcatParts(pre, d, rest);
    forall i | p <= i < p + |d|
      ensures IsDigit(text[i])
    {
      assert text[p + (i - p)] == d[i - p];
    }
    DigitRunEndAt(text, p, p + |d|);
  }

  /** At a digit the lexer reads the run of digits there as an integer literal. */
  lemma NumberAtDigit(text: string, p: nat)
    requires p < |text| && IsDigit(text[p])
    ensures NextToken(text, p) == Ok((Token(INTEGER_CONST, text[p..DigitRunEnd(text, p)]), DigitRunEnd(text, p)))
  {
    assert CharAt(text, p) == text[p];
  }

  /**
    Maximal munch on numbers: a run of digits d that is not followed by a digit
    yields INTEGER_CONST whose lexeme is exactly d, and the cursor ends right
    after d, on the first non-digit or at the end.
  */
  lemma IntegerLiteralToken(pre: string, d: string, rest: string)
    requires |d| > 0
    requires forall i :: 0 <= i < |d| ==> IsDigit(d[i])
    requires rest == [] || !IsDigit(rest[0])
    ensures NextToken(pre + d + rest, |pre|) == Ok((Token(INTEGER_CONST, d), |pre| + |d|))
  {
    var text, p := pre + d + rest, |pre|;
    ConcatParts(pre, d, rest);
    DigitsRunEnd(pre, d, rest);
    assert text[p + 0] == d[0];
    NumberAtDigit(text, p);
  }

  /**
    The operators: `:` always yields ASSIGN ":=" and consumes two characters
    whatever the second one is; each of `; + - * ( )` consumes one.
  */
  lemma OperatorTokens(text: string, p: nat)
    requires p < |text|
    ensures text[p] == ':' ==> NextToken(text, p) == Ok((Token(ASSIGN, ":="), p + 2))
    ensures text[p] == ';' ==> NextToken(text, p) == Ok((Token(SEMI, ";"), p + 1))
    ensures text[p] == '+' ==> NextToken(text, p) == Ok((Token(PLUS, "+"), p + 1))
    ensures text[p] == '-' ==> NextToken(text, p) == Ok((Token(MINUS, "-"), p + 1))
    ensures text[p] == '*' ==> NextToken(text, p) == Ok((Token(MUL, "*"), p + 1))
    ensures text[p] == '(' ==> NextToken(text, p) == Ok((Token(LPAREN, "("), p + 1))
    ensures text[p] == ')' ==> NextToken(text, p) == Ok((Token(RPAREN, ")"), p + 1))
  {
  }

  /** Any character that starts no token and is not skipped is an error. */
  lemma InvalidCharacterFails(text: string, p: nat)
    requires p < |text|
    requires text[p] != NUL && !IsSpace(text[p]) && text[p] != '{' && !IsLetterOrDigit(text[p])
    requires text[p] !in {':', ';', '+', '-', '*', '(', ')'}
    ensures NextToken(text, p) == Err(InvalidCharacter)
  {
  }

  /** Once get_next_token has returned EOF, every later call returns EOF again. */
  lemma EofIsSticky(text: string, p: nat)
    requires NextToken(text, p).Ok? && NextToken(text, p).value.0.kind == EOF
    ensures NextToken(text, NextToken(text, p).value.1) == NextToken(text, p)
  {
  }

  // ---------------------------------------------------------------------------
  // The lexer object

  class Lexer {
    const text: string
    var pos: nat
    var currentChar: char

    /** current_char always shows the character under the cursor. */
    ghost predicate Valid()
      reads this
    {
      currentChar == CharAt(text, pos)
    }

    /** The Java constructor reads charAt(0), so the text must not be empty. */
    constructor(text: string)
      requires |text| > 0
      ensures Valid() && this.text == text && pos == 0
    {
      this.text := text;
      pos := 0;
      currentChar := text[0];
    }

    /** Moves the cursor one character forward. */
    method Advance()
      requires Valid()
      modifies this
      ensures Valid() && pos == old(pos) + 1
    {
      pos := pos + 1;
      if pos > |text| - 1 {
        currentChar := NUL;
      } else {
        currentChar := text[pos];
      }
    }

    /** Reads the maximal run of digits at the cursor. */
    method Number() returns (t: Token)
      requires Valid()
      modifies this
      ensures Valid() && pos == DigitRunEnd(text, old(pos))
      ensures old(pos) <= |text| ==> t == Token(INTEGER_CONST, text[old(pos)..pos])
      ensures old(pos) > |text| ==> t == Token(INTEGER_CONST, "")
    {
      ghost var start := pos;
      var result := "";
      while currentChar != NUL && IsDigit(currentChar)
        invariant Valid() && start <= pos
        invariant DigitRunEnd(text, pos) == DigitRunEnd(text, start)
        invariant start <= |text| ==> pos <= |text| && result == text[start..pos]
        invariant start > |text| ==> pos == start && result == ""
        decreases |text| - pos
      {
        result := result + [currentChar];
        Advance();
      }
      t := Token(INTEGER_CONST, result);
    }

    /** Reads the maximal run of letters and digits at the cursor and classifies it. */
    method Id() returns (t: Token)
      requires Valid()
      modifies this
      ensures Valid() && pos == IdRunEnd(text, old(pos))
      ensures old(pos) <= |text| ==> t == KeywordOrId(text[old(pos)..pos])
      ensures old(pos) > |text| ==> t == KeywordOrId("")
    {
      ghost var start := pos;
      var result := "";
      while currentChar != NUL && IsLetterOrDigit(currentChar)
        invariant Valid() && start <= pos
        invariant IdRunEnd(text, pos) == IdRunEnd(text, start)
        invariant start <= |text| ==> pos <= |text| && result == text[start..pos]
        invariant start > |text| ==> pos == start && result == ""
        decreases |text| - pos
      {
        result := result + [currentChar];
        Advance();
      }
      t := KeywordOrId(result);
    }

    /** get_next_token: skips blanks and returns the next token or fails. */
    method GetNextToken() returns (r: Result<Token, LexError>)
      requires Valid()
      modifies this
      ensures Valid()
      ensures Scanned(r, pos) == NextToken(text, old(pos))
    {
      while currentChar != NUL
        invariant Valid()
        invariant NextToken(text, pos) == NextToken(text, old(pos))
        decreases |text| - pos
      {
        if IsSpace(currentChar) || currentChar == '\n' || currentChar == '\t' {
          SpaceIsSkipped(text, pos);
          Advance();
          continue;
        }
        if currentChar == '{' {
          var closed := SkipComment();
          if !closed {
            return Err(UnterminatedComment);
          }
          continue;
        }
        r := ScanToken();
        return;
      }
      return Ok(EofToken);
    }

    /**
      The comment branch of get_next_token: from the `{` under the cursor up
      to and past the first `}`; false when there is none.
    */
    method SkipComment() returns (closed: bool)
      requires Valid() && currentChar == '{'
      modifies this
      ensures Valid()
      ensures closed <==> CommentClose(text, old(pos) + 1).Some?
      ensures closed ==> NextToken(text, pos) == NextToken(text, old(pos)) && old(pos) < pos
      ensures closed ==> pos == CommentClose(text, old(pos) + 1).value + 1
      ensures !closed ==> NextToken(text, old(pos)) == Err(UnterminatedComment)
    {
      ghost var brace := pos;
      Advance();
      while currentChar != '}'
        invariant Valid() && brace < pos <= |text|
        invariant CommentClose(text, pos) == CommentClose(text, brace + 1)
        decreases |text| - pos
      {
        if pos >= |text| {
          // Java keeps advancing over '\0' until pos overflows to a negative int and charAt throws
          return false;
        }
        Advance();
      }
      ClosedCommentIsSkipped(text, brace, pos);
      Advance();
      return true;
    }

    /** The token-producing branches of get_next_token, at a character that is neither blank nor `{`. */
    method ScanToken() returns (r: Result<Token, LexError>)
      requires Valid() && currentChar != NUL && !IsSpace(currentChar) && currentChar != '{'
      modifies this
      ensures Valid()
      ensures Scanned(r, pos) == NextToken(text, old(pos))
    {
      if IsLetter(currentChar) {
        var t := Id();
        return Ok(t);
      }
      if IsDigit(currentChar) {
        var t := Number();
        return Ok(t);
      }
      if currentChar == ':' {
        Advance();
        Advance();
        return Ok(Token(ASSIGN, ":="));
      }
      if currentChar == ';' {
        Advance();
        return Ok(Token(SEMI, ";"));
      }
      if currentChar == '+' {
        Advance();
        return Ok(Token(PLUS, "+"));
      }
      if currentChar == '-' {
        Advance();
        return Ok(Token(MINUS, "-"));
      }
      if currentChar == '*' {
        Advance();
        return Ok(Token(MUL, "*"));
      }
      if currentChar == '(' {
        Advance();
        return Ok(Token(LPAREN, "("));
      }
      if currentChar == ')' {
        Advance();
        return Ok(Token(RPAREN, ")"));
      }
      return Err(InvalidCharacter);
    }
  }
}
