/** The scanner (src/lexer.c): turns NUL-terminated source text into a token
    array ended by one end-of-input token.

    `Scan` is the reference semantics: it records, with every token, the
    source slice [from, to) it was read from. `Tokenize` is the source's
    state machine over a `LexerState` and is proved to produce exactly the
    tokens of `Scan`. */
module Lexer {
  import opened Wrappers
  import opened Tokens

  /** INITIAL_TOKEN_CAPACITY. */
  const InitialTokenCapacity: nat := 50

  /** The keyword table, in source order. */
  const Keywords: seq<(string, TokenKind)> := [
    ("begin", Begin), ("end", End), ("int", Int),
    ("float", Float), ("if", If), ("then", Then),
    ("endif", EndIf), ("else", Else), ("endelse", EndElse),
    ("while", While), ("do", Do), ("endwhile", EndWhile),
    ("print", Print), ("scan", Scan), ("function", Function),
    ("procedure", Procedure), ("return", Return)
  ]

  // ---------------------------------------------------------------------------
  // Characters

  /** The character at `i` of NUL-terminated text: at or past the end it is NUL. */
  function At(src: string, i: nat): char
  {
    if i < |src| then src[i] else '\0'
  }

  /** isdigit, on ASCII. */
  predicate IsDigit(c: char) { '0' <= c <= '9' }

  /** isalpha, on ASCII. */
  predicate IsAlpha(c: char) { 'a' <= c <= 'z' || 'A' <= c <= 'Z' }

  /** The characters an identifier may start with. */
  predicate IsIdentStart(c: char) { IsAlpha(c) || c == '_' }

  /** isalnum or underscore: the characters an identifier continues with. */
  predicate IsIdentChar(c: char) { IsAlpha(c) || IsDigit(c) || c == '_' }

  /** The end of the run of identifier characters that starts at `i`. */
  function IdentEnd(src: string, i: nat): (j: nat)
    requires i <= |src|
    ensures i <= j <= |src| && !IsIdentChar(At(src, j))
    decreases |src| - i
  {
    if IsIdentChar(At(src, i)) then IdentEnd(src, i + 1) else i
  }

  /** The end of the run of digits that starts at `i`. */
  function DigitsEnd(src: string, i: nat): (j: nat)
    requires i <= |src|
    ensures i <= j <= |src| && !IsDigit(At(src, j))
    decreases |src| - i
  {
    if IsDigit(At(src, i)) then DigitsEnd(src, i + 1) else i
  }

  /** Where a line comment whose body starts at `i` stops: at the next newline
      (which is not consumed) or at the end of the text. */
  function CommentEnd(src: string, i: nat): (j: nat)
    requires i <= |src|
    ensures i <= j <= |src| && (At(src, j) == '\n' || At(src, j) == '\0')
    decreases |src| - i
  {
    if At(src, i) != '\n' && At(src, i) != '\0' then CommentEnd(src, i + 1) else i
  }

  // ---------------------------------------------------------------------------
  // Keywords

  /** The kind the first entry of `table` named `word` gives, or Identifier. */
  function KindIn(table: seq<(string, TokenKind)>, word: string): TokenKind
  {
    if table == [] then Identifier
    else if table[0].0 == word then table[0].1
    else KindIn(table[1..], word)
  }

  /** The token kind of an identifier-shaped lexeme. */
  function KeywordKind(word: string): TokenKind
  {
    KindIn(Keywords, word)
  }

  /** The keyword loop of identifier(): try each table entry in order and stop
      at the first exact match. */
  method LookupKeyword(word: string) returns (kind: TokenKind)
    ensures kind == KeywordKind(word)
  {
    kind := Identifier;
    var i := 0;
    while i < |Keywords|
      invariant 0 <= i <= |Keywords|
      invariant KeywordKind(word) == KindIn(Keywords[i..], word)
    {
      if Keywords[i].0 == word {
        kind := Keywords[i].1;
        return;
      }
      assert Keywords[i..][1..] == Keywords[i + 1..];
      i := i + 1;
    }
  }

  // ---------------------------------------------------------------------------
  // The reference scanner

  /** The kind and end of the token that starts at `pos`, for a character that
      is neither NUL, blank, newline, nor the start of a `//` comment. */
  function LexemeAt(src: string, pos: nat): (r: (TokenKind, nat))
    requires pos < |src|
    ensures pos < r.1 <= |src|
  {
    var c := src[pos];
    var next := At(src, pos + 1);
    if c == '(' then (LParen, pos + 1)
    else if c == ')' then (RParen, pos + 1)
    else if c == ',' then (Comma, pos + 1)
    else if c == ';' then (Semicolon, pos + 1)
    else if c == '+' then (Plus, pos + 1)
    else if c == '-' then (Minus, pos + 1)
    else if c == '*' then (Asterisk, pos + 1)
    else if c == '/' then (Slash, pos + 1)
    else if c == '=' then (if next == '=' then (Eq, pos + 2) else (Assign, pos + 1))
    else if c == '!' then (if next == '=' then (Neq, pos + 2) else (Unknown, pos + 1))
    else if c == '<' then (if next == '=' then (Lte, pos + 2) else (Lt, pos + 1))
    else if c == '>' then (if next == '=' then (Gte, pos + 2) else (Gt, pos + 1))
    else if IsIdentStart(c) then
      var end := IdentEnd(src, pos);
      (KeywordKind(src[pos..end]), end)
    else if IsDigit(c) then
      var d := DigitsEnd(src, pos);
      if At(src, d) == '.' && IsDigit(At(src, d + 1)) then (FloatLiteral, DigitsEnd(src, d + 1))
      else (IntegerLiteral, d)
    else (Unknown, pos + 1)
  }

  /** A token together with the source slice [from, to) it was scanned from. */
  datatype Spanned = Spanned(token: Token, from: nat, to: nat)

  /** What one turn of the scanning loop does at a character other than NUL:
      skip to `next` (blanks, newlines, comments), or emit a token of `kind`
      whose lexeme ends at `end`. */
  datatype Step = Skip(next: nat, newLine: int) | Emit(kind: TokenKind, end: nat)

  /** One turn of the scanning loop at `pos`, on line `line`. */
  function StepAt(src: string, pos: nat, line: int): (r: Step)
    requires pos < |src|
    ensures r.Skip? ==> pos < r.next <= |src|
    ensures r.Emit? ==> pos < r.end <= |src|
  {
    var c := src[pos];
    if c == ' ' || c == '\r' || c == '\t' then Skip(pos + 1, line)
    else if c == '\n' then Skip(pos + 1, line + 1)
    else if c == '/' && At(src, pos + 1) == '/' then Skip(CommentEnd(src, pos + 1), line)
    else
      var (kind, end) := LexemeAt(src, pos);
      Emit(kind, end)
  }

  /** Scan the text from `pos` on, `line` being the current line number: the
      tokens up to the first NUL (or the end), then the end marker. */
  function ScanFrom(src: string, pos: nat, line: int): seq<Spanned>
    requires pos <= |src|
    decreases |src| - pos
  {
    if At(src, pos) == '\0' then [Spanned(Token(Eof, "EOF", line), pos, pos)]
    else match StepAt(src, pos, line)
      case Skip(next, newLine) => ScanFrom(src, next, newLine)
      case Emit(kind, end) => [Spanned(Token(kind, src[pos..end], line), pos, end)] + ScanFrom(src, end, line)
  }

  /** The spanned tokens of a whole text, starting on line 1. */
  function Spans(src: string): seq<Spanned>
  {
    ScanFrom(src, 0, 1)
  }

  /** The tokens of a sequence of spanned tokens. */
  function TokensOf(s: seq<Spanned>): (r: seq<Token>)
    ensures |r| == |s| && forall i :: 0 <= i < |s| ==> r[i] == s[i].token
  {
    if s == [] then [] else [s[0].token] + TokensOf(s[1..])
  }

  /** The token stream tokenize() produces for `src`. */
  function TokenStream(src: string): seq<Token>
  {
    TokensOf(Spans(src))
  }

  // ---------------------------------------------------------------------------
  // The source's state machine

  /** LexerState: the cursor over the text and the growable token buffer. */
  class LexerState {
    const source: string
    var start: nat
    var current: nat
    var line: int
    var tokens: array<Token>
    var tokenCount: nat
    var tokenCapacity: nat
    ghost var Repr: set<object>

    ghost predicate Valid()
      reads this, Repr
    {
      && Repr == {this, tokens}
      && tokens.Length == tokenCapacity
      && 0 < tokenCapacity
      && tokenCount <= tokenCapacity
      && start <= current <= |source|
    }

    /** The tokens added so far, in order. */
    ghost function Emitted(): seq<Token>
      reads this, tokens
      requires tokenCount <= tokens.Length
    {
      tokens[..tokenCount]
    }

    /** The initial state of tokenize(): both cursors at the start of the text,
        line 1, an empty buffer of INITIAL_TOKEN_CAPACITY tokens. */
    constructor (src: string)
      ensures Valid() && fresh(Repr)
      ensures source == src && start == 0 && current == 0 && line == 1
      ensures Emitted() == [] && tokenCapacity == InitialTokenCapacity
    {
      source := src;
      start, current, line := 0, 0, 1;
      tokens := new Token[InitialTokenCapacity];
      tokenCount, tokenCapacity := 0, InitialTokenCapacity;
      Repr := {this, tokens};
    }

    /** add_token: when the buffer is full its capacity doubles, keeping every
        token already added; then the token is appended with the current line. */
    method AddToken(kind: TokenKind, lexeme: string)
      requires Valid()
      modifies Repr
      ensures Valid() && fresh(Repr - old(Repr))
      ensures Emitted() == old(Emitted()) + [Token(kind, lexeme, line)]
      ensures tokenCapacity == if old(tokenCount) >= old(tokenCapacity) then 2 * old(tokenCapacity) else old(tokenCapacity)
      ensures start == old(start) && current == old(current) && line == old(line)
    {
      if tokenCount >= tokenCapacity {
        tokenCapacity := tokenCapacity * 2;
        var grown := new Token[tokenCapacity];
        forall i | 0 <= i < tokenCount {
          grown[i] := tokens[i];
        }
        tokens := grown;
        Repr := {this, tokens};
      }
      tokens[tokenCount] := Token(kind, lexeme, line);
      tokenCount := tokenCount + 1;
    }

    /** number(): a run of digits, continued by `.` and a further run of digits
        only when a digit follows the dot. */
    method Number()
      requires Valid() && current == start && start < |source| && IsDigit(source[start])
      modifies Repr
      ensures Valid() && fresh(Repr - old(Repr))
      ensures start == old(start) && line == old(line)
      ensures current == LexemeAt(source, start).1
      ensures Emitted() == old(Emitted()) + [Token(LexemeAt(source, start).0, source[start..current], line)]
    {
      var cursor := current;
      while IsDigit(At(source, cursor))
        invariant start <= cursor <= |source|
        invariant DigitsEnd(source, start) == DigitsEnd(source, cursor)
        decreases |source| - cursor
      {
        cursor := cursor + 1;
      }
      var kind := IntegerLiteral;
      if At(source, cursor) == '.' && IsDigit(At(source, cursor + 1)) {
        kind := FloatLiteral;
        cursor := cursor + 1;
        while IsDigit(At(source, cursor))
          invariant start <= cursor <= |source|
          invariant LexemeAt(source, start).1 == DigitsEnd(source, cursor)
          decreases |source| - cursor
        {
          cursor := cursor + 1;
        }
      }
      current := cursor;
      AddToken(kind, source[start..current]);
    }

    /** identifier(): the maximal run of letters, digits and underscores, typed
        by an exact match against the keyword table. */
    method Identifier()
      requires Valid() && current == start && start < |source| && IsIdentStart(source[start])
      modifies Repr
      ensures Valid() && fresh(Repr - old(Repr))
      ensures start == old(start) && line == old(line)
      ensures current == LexemeAt(source, start).1
      ensures Emitted() == old(Emitted()) + [Token(LexemeAt(source, start).0, source[start..current], line)]
    {
      var cursor := current;
      while IsIdentChar(At(source, cursor))
        invariant start <= cursor <= |source|
        invariant IdentEnd(source, start) == IdentEnd(source, cursor)
        decreases |source| - cursor
      {
        cursor := cursor + 1;
      }
      current := cursor;
      assert LexemeAt(source, start) == (KeywordKind(source[start..current]), current);
      var kind := LookupKeyword(source[start..current]);
      AddToken(kind, source[start..current]);
    }

    /** The four operators that may be followed by `=`: with the `=` the
        token is `double` and two characters long, without it `single`. */
    method OneOrTwo(single: TokenKind, double: TokenKind)
      requires Valid() && start < current <= |source|
      modifies Repr
      ensures Valid() && fresh(Repr - old(Repr))
      ensures start == old(start) && line == old(line)
      ensures current == if At(source, old(current)) == '=' then old(current) + 1 else old(current)
      ensures Emitted() == old(Emitted()) + [Token(if At(source, old(current)) == '=' then double else single, source[start..current], line)]
    {
      if At(source, current) == '=' {
        current := current + 1;
        AddToken(double, source[start..current]);
      } else {
        AddToken(single, source[start..current]);
      }
    }

    /** The body of a `//` comment: everything up to the next newline or the
        end of the text, the newline itself left for the next turn. */
    method SkipComment()
      requires Valid() && current <= |source|
      modifies this
      ensures Valid() && Repr == old(Repr) && Emitted() == old(Emitted())
      ensures start == old(start) && line == old(line)
      ensures current == CommentEnd(source, old(current))
    {
      var cursor := current;
      while At(source, cursor) != '\n' && At(source, cursor) != '\0'
        invariant current <= cursor <= |source|
        invariant CommentEnd(source, current) == CommentEnd(source, cursor)
        decreases |source| - cursor
      {
        cursor := cursor + 1;
      }
      current := cursor;
    }

    /** The default case of the switch: an identifier or keyword, a number,
        or a one-character unknown token. */
    method Other(c: char)
      requires Valid() && start < |source| && current == start + 1 && source[start] == c
      requires !(c in "()+-*,;/=!<>")
      modifies Repr
      ensures Valid() && fresh(Repr - old(Repr))
      ensures start == old(start) && line == old(line)
      ensures current == LexemeAt(source, start).1
      ensures Emitted() == old(Emitted()) + [Token(LexemeAt(source, start).0, source[start..current], line)]
    {
      if IsIdentStart(c) {
        current := current - 1;
        Identifier();
      } else if IsDigit(c) {
        current := current - 1;
        Number();
      } else {
        AddToken(Unknown, source[start..current]);
      }
    }

    /** One turn of the loop of tokenize(): the switch on the character under
        the cursor, which is not NUL. It does what `StepAt` says. */
    method ScanToken()
      requires Valid() && current < |source| && source[current] != '\0'
      modifies Repr
      ensures Valid() && fresh(Repr - old(Repr))
      ensures start == old(current)
      ensures match StepAt(source, old(current), old(line))
        case Skip(next, newLine) =>
          current == next && line == newLine && Emitted() == old(Emitted())
        case Emit(kind, end) =>
          && current == end && line == old(line)
          && Emitted() == old(Emitted()) + [Token(kind, source[start..end], line)]
    {
      start := current;
      var c := source[current];
      current := current + 1;
      match c
      case ' ' | '\r' | '\t' =>
      case '\n' => line := line + 1;
      case '(' => AddToken(LParen, source[start..current]);
      case ')' => AddToken(RParen, source[start..current]);
      case ',' => AddToken(Comma, source[start..current]);
      case ';' => AddToken(Semicolon, source[start..current]);
      case '+' => AddToken(Plus, source[start..current]);
      case '-' => AddToken(Minus, source[start..current]);
      case '*' => AddToken(Asterisk, source[start..current]);
      case '/' =>
        if At(source, current) == '/' {
          SkipComment();
        } else {
          AddToken(Slash, source[start..current]);
        }
      case '=' => OneOrTwo(Assign, Eq);
      case '!' => OneOrTwo(Unknown, Neq);
      case '<' => OneOrTwo(Lt, Lte);
      case '>' => OneOrTwo(Gt, Gte);
      case _ => Other(c);
    }
  }

  /** The tokens of a spanned token followed by more: its token first. */
  lemma TokensOfCons(x: Spanned, s: seq<Spanned>)
    ensures TokensOf([x] + s) == [x.token] + TokensOf(s)
  {
    assert ([x] + s)[1..] == s;
  }

  /** One turn of the loop keeps "tokens so far, then the tokens of the rest"
      equal to the tokens of the whole text. */
  lemma ScanStep(emitted: seq<Token>, src: string, pos: nat, line: int)
    requires pos < |src| && src[pos] != '\0'
    ensures var step := StepAt(src, pos, line);
      if step.Skip? then
        emitted + TokensOf(ScanFrom(src, step.next, step.newLine)) == emitted + TokensOf(ScanFrom(src, pos, line))
      else
        (emitted + [Token(step.kind, src[pos..step.end], line)]) + TokensOf(ScanFrom(src, step.end, line))
        == emitted + TokensOf(ScanFrom(src, pos, line))
  {
    var step := StepAt(src, pos, line);
    if step.Emit? {
      var token := Token(step.kind, src[pos..step.end], line);
      var rest := ScanFrom(src, step.end, line);
      TokensOfCons(Spanned(token, pos, step.end), rest);
      assert (emitted + [token]) + TokensOf(rest) == emitted + ([token] + TokensOf(rest));
    }
  }

  /** tokenize(): scan the whole text and close the stream with an EOF token.
      The tokens returned are exactly those of the reference scanner. */
  method Tokenize(source: string) returns (tokens: array<Token>, tokenCount: nat)
    ensures tokenCount <= tokens.Length
    ensures tokens[..tokenCount] == TokenStream(source)
  {
    var st := new LexerState(source);
    while At(source, st.current) != '\0'
      invariant st.Valid() && fresh(st.Repr) && st.source == source
      invariant st.Emitted() + TokensOf(ScanFrom(source, st.current, st.line)) == TokenStream(source)
      decreases |source| - st.current
    {
      ghost var pos, line, emitted := st.current, st.line, st.Emitted();
      st.ScanToken();
      ScanStep(emitted, source, pos, line);
    }
    var eof := Token(Eof, "EOF", st.line);
    assert ScanFrom(source, st.current, st.line) == [Spanned(eof, st.current, st.current)];
    TokensOfCons(Spanned(eof, st.current, st.current), []);
    st.AddToken(Eof, "EOF");
    tokens, tokenCount := st.tokens, st.tokenCount;
  }
}
