/** Properties of the scanner (src/lexer.c), stated on the reference scanner
    `Lexer.ScanFrom`, which `Lexer.Tokenize` is proved to follow. */
module LexerProps {
  import opened Tokens
  import opened Lexer

  // ---------------------------------------------------------------------------
  // Runs of characters

  /** Every character of an identifier run continues an identifier. */
  lemma {:induction false} IdentRun(src: string, i: nat)
    requires i <= |src|
    ensures forall k :: i <= k < IdentEnd(src, i) ==> IsIdentChar(src[k])
    decreases |src| - i
  {
    if IsIdentChar(At(src, i)) {
      IdentRun(src, i + 1);
    }
  }

  /** Every character of a digit run is a digit. */
  lemma {:induction false} DigitRun(src: string, i: nat)
    requires i <= |src|
    ensures forall k :: i <= k < DigitsEnd(src, i) ==> IsDigit(src[k])
    decreases |src| - i
  {
    if IsDigit(At(src, i)) {
      DigitRun(src, i + 1);
    }
  }

  /** A comment body holds no newline and no NUL. */
  lemma {:induction false} CommentRun(src: string, i: nat)
    requires i <= |src|
    ensures forall k :: i <= k < CommentEnd(src, i) ==> src[k] != '\n' && src[k] != '\0'
    decreases |src| - i
  {
    if At(src, i) != '\n' && At(src, i) != '\0' {
      CommentRun(src, i + 1);
    }
  }

  // ---------------------------------------------------------------------------
  // Lines

  /** The number of newlines in src[i..j]. */
  function Newlines(src: string, i: nat, j: nat): nat
    requires i <= j <= |src|
    decreases j - i
  {
    if i == j then 0 else (if src[i] == '\n' then 1 else 0) + Newlines(src, i + 1, j)
  }

  /** Newlines add up over adjacent slices. */
  lemma {:induction false} NewlinesSplit(src: string, i: nat, j: nat, k: nat)
    requires i <= j <= k <= |src|
    ensures Newlines(src, i, k) == Newlines(src, i, j) + Newlines(src, j, k)
    decreases j - i
  {
    if i < j {
      NewlinesSplit(src, i + 1, j, k);
    }
  }

  /** A slice none of whose characters is a newline holds no newline. */
  lemma {:induction false} NewlinesNone(src: string, i: nat, j: nat)
    requires i <= j <= |src|
    requires forall k :: i <= k < j ==> src[k] != '\n'
    ensures Newlines(src, i, j) == 0
    decreases j - i
  {
    if i < j {
      NewlinesNone(src, i + 1, j);
    }
  }

  /** No lexeme spans a newline. */
  lemma LexemeOnOneLine(src: string, pos: nat)
    requires pos < |src| && src[pos] != '\n'
    ensures Newlines(src, pos, LexemeAt(src, pos).1) == 0
  {
    var end := LexemeAt(src, pos).1;
    var c := src[pos];
    if IsIdentStart(c) && !(c in "()+-*,;/=!<>") {
      IdentRun(src, pos);
    } else if IsDigit(c) {
      DigitRun(src, pos);
      var d := DigitsEnd(src, pos);
      if At(src, d) == '.' && IsDigit(At(src, d + 1)) {
        DigitRun(src, d + 1);
      }
    }
    NewlinesNone(src, pos, end);
  }

  /** Every token of `s` starts at or after `pos`, on `line` plus the number
      of newlines between `pos` and the token. */
  ghost predicate Lined(src: string, pos: nat, line: int, s: seq<Spanned>)
  {
    forall i :: 0 <= i < |s| ==>
      pos <= s[i].from <= |src| && s[i].token.line == line + Newlines(src, pos, s[i].from)
  }

  /** Each token carries the line it starts on: the line the scan began on plus
      the newlines between the scan's start and the token. A comment stops
      before its newline, so that newline is still counted. */
  lemma {:induction false} ScanLines(src: string, pos: nat, line: int)
    requires pos <= |src|
    ensures Lined(src, pos, line, ScanFrom(src, pos, line))
    decreases |src| - pos
  {
    var s := ScanFrom(src, pos, line);
    if At(src, pos) != '\0' {
      match StepAt(src, pos, line)
      case Skip(next, newLine) =>
        var rest := ScanFrom(src, next, newLine);
        assert s == rest;
        ScanLines(src, next, newLine);
        if src[pos] == '/' && At(src, pos + 1) == '/' {
          CommentRun(src, pos + 1);
          NewlinesNone(src, pos, next);
        } else {
          assert Newlines(src, pos + 1, pos + 1) == 0;
        }
        assert newLine == line + Newlines(src, pos, next);
        forall i | 0 <= i < |s|
          ensures pos <= s[i].from <= |src| && s[i].token.line == line + Newlines(src, pos, s[i].from)
        {
          assert next <= rest[i].from <= |src| && rest[i].token.line == newLine + Newlines(src, next, rest[i].from);
          NewlinesSplit(src, pos, next, s[i].from);
        }
      case Emit(kind, end) =>
        var rest := ScanFrom(src, end, line);
        assert s == [s[0]] + rest;
        ScanLines(src, end, line);
        LexemeOnOneLine(src, pos);
        forall i | 0 <= i < |s|
          ensures pos <= s[i].from <= |src| && s[i].token.line == line + Newlines(src, pos, s[i].from)
        {
          if i > 0 {
            assert s[i] == rest[i - 1];
            assert end <= rest[i - 1].from <= |src| && rest[i - 1].token.line == line + Newlines(src, end, rest[i - 1].from);
            NewlinesSplit(src, pos, end, s[i].from);
          }
        }
    }
  }

  /** Lines start at 1 and grow by one per newline before the token. */
  lemma LineNumbers(src: string)
    ensures Lined(src, 0, 1, Spans(src))
  {
    ScanLines(src, 0, 1);
  }

  // ---------------------------------------------------------------------------
  // Layout: slices, order and gaps

  /** The characters skipped without producing a token. */
  predicate IsBlank(c: char) { c == ' ' || c == '\r' || c == '\t' || c == '\n' }

  /** src[i..j] is text the scanner skips: blanks, newlines and whole `//`
      comments (each ended by the newline that follows it or by the end). */
  ghost predicate Skippable(src: string, i: nat, j: nat)
    requires i <= j <= |src|
    decreases j - i
  {
    i == j ||
    (IsBlank(src[i]) && Skippable(src, i + 1, j)) ||
    (src[i] == '/' && At(src, i + 1) == '/' && CommentEnd(src, i + 1) <= j && Skippable(src, CommentEnd(src, i + 1), j))
  }

  /** Every token of a scan lies in the text from `pos` on; each but the last
      is the exact non-empty slice it came from and is not the end marker. */
  ghost predicate Sliced(src: string, pos: nat, s: seq<Spanned>)
  {
    && (forall i :: 0 <= i < |s| ==> pos <= s[i].from <= s[i].to <= |src|)
    && (forall i :: 0 <= i < |s| - 1 ==>
          && s[i].from < s[i].to <= |src|
          && s[i].token.lexeme == src[s[i].from..s[i].to]
          && s[i].token.kind != Eof)
  }

  /** Tokens follow each other in source order with only skippable text
      before the first and between any two. */
  ghost predicate Gapped(src: string, pos: nat, s: seq<Spanned>)
  {
    && (|s| > 0 ==> pos <= s[0].from <= |src| && Skippable(src, pos, s[0].from))
    && (forall i :: 0 <= i < |s| - 1 ==> Between(src, s[i], s[i + 1]))
  }

  /** `b` comes after `a` with only skippable text between them. */
  ghost predicate Between(src: string, a: Spanned, b: Spanned)
  {
    a.to <= b.from <= |src| && Skippable(src, a.to, b.from)
  }

  /** Text skipped by one turn of the scanner, followed by skippable text, is
      skippable. */
  lemma SkipThenSkippable(src: string, pos: nat, line: int, j: nat)
    requires pos < |src| && src[pos] != '\0' && StepAt(src, pos, line).Skip?
    requires StepAt(src, pos, line).next <= j <= |src|
    requires Skippable(src, StepAt(src, pos, line).next, j)
    ensures Skippable(src, pos, j)
  {
  }

  /** The last token is the end marker "EOF", empty, at the first NUL or at
      the end of the text. */
  ghost predicate Closed(src: string, s: seq<Spanned>)
  {
    && |s| > 0
    && s[|s| - 1].token.kind == Eof && s[|s| - 1].token.lexeme == "EOF"
    && s[|s| - 1].from == s[|s| - 1].to && At(src, s[|s| - 1].from) == '\0'
  }

  /** No token the scanner emits for a character is the end marker. */
  lemma LexemeNotEof(src: string, pos: nat)
    requires pos < |src|
    ensures LexemeAt(src, pos).0 != Eof
  {
    var c := src[pos];
    if IsIdentStart(c) && !(c in "()+-*,;/=!<>") {
      KeywordKindNotEof(src[pos..IdentEnd(src, pos)]);
    }
  }

  /** A scan ends with the end marker. */
  lemma {:induction false} ScanClosed(src: string, pos: nat, line: int)
    requires pos <= |src|
    ensures Closed(src, ScanFrom(src, pos, line))
    decreases |src| - pos
  {
    var s := ScanFrom(src, pos, line);
    if At(src, pos) != '\0' {
      match StepAt(src, pos, line)
      case Skip(next, newLine) =>
        ScanClosed(src, next, newLine);
      case Emit(kind, end) =>
        ScanClosed(src, end, line);
        assert s[|s| - 1] == ScanFrom(src, end, line)[|s| - 2];
    }
  }

  /** Every token of a scan is the slice it came from. */
  lemma {:induction false} ScanSliced(src: string, pos: nat, line: int)
    requires pos <= |src|
    ensures Sliced(src, pos, ScanFrom(src, pos, line))
    decreases |src| - pos
  {
    var s := ScanFrom(src, pos, line);
    if At(src, pos) != '\0' {
      match StepAt(src, pos, line)
      case Skip(next, newLine) =>
        ScanSliced(src, next, newLine);
      case Emit(kind, end) =>
        var rest := ScanFrom(src, end, line);
        ScanSliced(src, end, line);
        LexemeNotEof(src, pos);
        assert forall i :: 1 <= i < |s| ==> s[i] == rest[i - 1];
    }
  }

  /** Between the tokens of a scan there is only skippable text. */
  lemma {:induction false} ScanGapped(src: string, pos: nat, line: int)
    requires pos <= |src|
    ensures Gapped(src, pos, ScanFrom(src, pos, line))
    decreases |src| - pos
  {
    var s := ScanFrom(src, pos, line);
    if At(src, pos) != '\0' {
      match StepAt(src, pos, line)
      case Skip(next, newLine) =>
        ScanGapped(src, next, newLine);
        ScanClosed(src, next, newLine);
        assert s == ScanFrom(src, next, newLine);
        SkipThenSkippable(src, pos, line, s[0].from);
      case Emit(kind, end) =>
        var rest := ScanFrom(src, end, line);
        ScanGapped(src, end, line);
        ScanClosed(src, end, line);
        assert s == [s[0]] + rest;
        assert Between(src, s[0], s[1]) by {
          assert s[1] == rest[0];
        }
        forall i | 1 <= i < |s| - 1
          ensures Between(src, s[i], s[i + 1])
        {
          assert s[i] == rest[i - 1] && s[i + 1] == rest[i];
        }
    }
  }

  /** The shape of a scan: sliced, gapped and closed. */
  ghost predicate Laid(src: string, pos: nat, s: seq<Spanned>)
    requires pos <= |src|
  {
    Sliced(src, pos, s) && Gapped(src, pos, s) && Closed(src, s)
  }

  /** The scanner's output on a whole text: every lexeme is the slice it was
      read from, in source order and without overlap, with only blanks and
      comments around them, and the end marker last. */
  lemma SpansLaid(src: string)
    ensures Laid(src, 0, Spans(src))
  {
    ScanSliced(src, 0, 1);
    ScanGapped(src, 0, 1);
    ScanClosed(src, 0, 1);
  }

  /** The token stream is non-empty, ends with the single end marker "EOF",
      and has no end marker anywhere before. */
  lemma StreamWellTerminated(src: string)
    ensures WellTerminated(TokenStream(src))
    ensures var t := TokenStream(src); t[|t| - 1].lexeme == "EOF"
  {
    SpansLaid(src);
  }

  // ---------------------------------------------------------------------------
  // Keywords and identifiers

  /** The first entry named `word` gives the kind. */
  lemma {:induction false} KindInDecides(table: seq<(string, TokenKind)>, word: string)
    ensures forall i :: 0 <= i < |table| && table[i].0 == word && (forall j :: 0 <= j < i ==> table[j].0 != word)
                   ==> KindIn(table, word) == table[i].1
  {
    if table != [] {
      KindInDecides(table[1..], word);
      if table[0].0 != word {
        forall i | 0 <= i < |table| && table[i].0 == word && (forall j :: 0 <= j < i ==> table[j].0 != word)
          ensures KindIn(table, word) == table[i].1
        {
          assert table[1..][i - 1] == table[i];
        }
      }
    }
  }

  /** A table without an entry named `word` gives Identifier. */
  lemma {:induction false} KindInAbsent(table: seq<(string, TokenKind)>, word: string)
    requires forall i :: 0 <= i < |table| ==> table[i].0 != word
    ensures KindIn(table, word) == Identifier
  {
    if table != [] {
      assert forall i :: 0 <= i < |table[1..]| ==> table[1..][i] == table[i + 1];
      KindInAbsent(table[1..], word);
    }
  }

  /** If some entry is named `word`, a first one is. */
  lemma {:induction false} FirstEntry(table: seq<(string, TokenKind)>, word: string, k: int) returns (i: int)
    requires 0 <= k < |table| && table[k].0 == word
    ensures 0 <= i <= k && table[i].0 == word && forall j :: 0 <= j < i ==> table[j].0 != word
  {
    if exists j :: 0 <= j < k && table[j].0 == word {
      var j :| 0 <= j < k && table[j].0 == word;
      i := FirstEntry(table, word, j);
    } else {
      i := k;
    }
  }

  /** The first entry named `word` decides; no entry means Identifier. */
  lemma KindInFirst(table: seq<(string, TokenKind)>, word: string)
    ensures KindIn(table, word) == Identifier <==>
      (forall i :: 0 <= i < |table| ==> table[i].0 != word || table[i].1 == Identifier)
      || exists i :: 0 <= i < |table| && table[i].0 == word && table[i].1 == Identifier &&
           forall j :: 0 <= j < i ==> table[j].0 != word
    ensures forall i :: 0 <= i < |table| && table[i].0 == word && (forall j :: 0 <= j < i ==> table[j].0 != word)
                   ==> KindIn(table, word) == table[i].1
  {
    KindInDecides(table, word);
    if exists k :: 0 <= k < |table| && table[k].0 == word {
      var k :| 0 <= k < |table| && table[k].0 == word;
      var i := FirstEntry(table, word, k);
      assert KindIn(table, word) == table[i].1;
    } else {
      KindInAbsent(table, word);
    }
  }

  /** No keyword of the table is Identifier or the end marker, and the
      table's words are pairwise distinct. */
  lemma KeywordTableShape()
    ensures forall i :: 0 <= i < |Keywords| ==> Keywords[i].1 != Identifier && Keywords[i].1 != Eof
    ensures forall i, j :: 0 <= i < j < |Keywords| ==> Keywords[i].0 != Keywords[j].0
  {
    KeywordsDistinct();
  }

  /** No word appears twice in the keyword table. */
  lemma KeywordsDistinct()
    ensures forall i, j :: 0 <= i < j < |Keywords| ==> Keywords[i].0 != Keywords[j].0
  {
  }

  /** A word is typed as a keyword exactly when it equals, character for
      character, an entry of the keyword table, and then it gets that entry's
      kind; every other word is an Identifier. */
  lemma KeywordExact(word: string)
    ensures KeywordKind(word) != Identifier <==> exists i :: 0 <= i < |Keywords| && Keywords[i].0 == word
    ensures forall i :: 0 <= i < |Keywords| && Keywords[i].0 == word ==> KeywordKind(word) == Keywords[i].1
  {
    KeywordTableShape();
    KindInFirst(Keywords, word);
  }

  /** No identifier-shaped word is the end marker. */
  lemma KeywordKindNotEof(word: string)
    ensures KeywordKind(word) != Eof
  {
    KeywordExact(word);
    KeywordTableShape();
  }

  /** An identifier token is a maximal run of letters, digits and underscores
      that starts with a letter or an underscore. */
  lemma IdentifierMaximal(src: string, pos: nat)
    requires pos < |src| && IsIdentStart(src[pos])
    ensures var (kind, end) := LexemeAt(src, pos);
      && kind == KeywordKind(src[pos..end])
      && (forall k :: pos <= k < end ==> IsIdentChar(src[k]))
      && !IsIdentChar(At(src, end))
  {
    IdentRun(src, pos);
  }

  // ---------------------------------------------------------------------------
  // Numbers and operators

  /** A digit run is an integer literal, and a float literal only when a dot
      and at least one more digit follow it; the lexeme is digits with at
      most that one dot. */
  lemma NumberShape(src: string, pos: nat)
    requires pos < |src| && IsDigit(src[pos])
    ensures var (kind, end) := LexemeAt(src, pos);
      var d := DigitsEnd(src, pos);
      && (kind == FloatLiteral <==> At(src, d) == '.' && IsDigit(At(src, d + 1)))
      && (kind == IntegerLiteral <==> !(At(src, d) == '.' && IsDigit(At(src, d + 1))))
      && (forall k :: pos <= k < end && k != d ==> IsDigit(src[k]))
      && !IsDigit(At(src, end))
  {
    DigitRun(src, pos);
    var d := DigitsEnd(src, pos);
    if At(src, d) == '.' && IsDigit(At(src, d + 1)) {
      DigitRun(src, d + 1);
    }
  }

  /** `3.` scans as the integer 3 followed by an unknown `.`. */
  lemma TrailingDotIsNotFloat()
    ensures TokenStream("3.") == [Token(IntegerLiteral, "3", 1), Token(Unknown, ".", 1), Token(Eof, "EOF", 1)]
  {
    var src := "3.";
    assert DigitsEnd(src, 1) == 1;
    assert DigitsEnd(src, 0) == 1;
    assert LexemeAt(src, 0) == (IntegerLiteral, 1);
    assert LexemeAt(src, 1) == (Unknown, 2);
    assert src[0..1] == "3" && src[1..2] == ".";
    var s2 := [Spanned(Token(Eof, "EOF", 1), 2, 2)];
    assert ScanFrom(src, 2, 1) == s2;
    var s1 := [Spanned(Token(Unknown, ".", 1), 1, 2)] + s2;
    assert ScanFrom(src, 1, 1) == s1;
    assert ScanFrom(src, 0, 1) == [Spanned(Token(IntegerLiteral, "3", 1), 0, 1)] + s1;
  }

  /** `3.25` is one float literal. */
  lemma FloatLiteralExample()
    ensures TokenStream("3.25") == [Token(FloatLiteral, "3.25", 1), Token(Eof, "EOF", 1)]
  {
    var src := "3.25";
    assert DigitsEnd(src, 4) == 4;
    assert DigitsEnd(src, 3) == 4;
    assert DigitsEnd(src, 2) == 4;
    assert DigitsEnd(src, 1) == 1;
    assert DigitsEnd(src, 0) == 1;
    assert LexemeAt(src, 0) == (FloatLiteral, 4);
    assert src[0..4] == "3.25";
    var s4 := [Spanned(Token(Eof, "EOF", 1), 4, 4)];
    assert ScanFrom(src, 4, 1) == s4;
    assert ScanFrom(src, 0, 1) == [Spanned(Token(FloatLiteral, "3.25", 1), 0, 4)] + s4;
  }

  /** `==`, `!=`, `<=` and `>=` win over their one-character prefixes; a lone
      `!` is an unknown token. */
  lemma TwoCharOperators(src: string, pos: nat)
    requires pos < |src| && src[pos] in "=!<>"
    ensures var (kind, end) := LexemeAt(src, pos);
      && (At(src, pos + 1) == '=' ==> end == pos + 2 && kind in {Eq, Neq, Lte, Gte})
      && (At(src, pos + 1) != '=' ==> end == pos + 1 && kind in {Assign, Unknown, Lt, Gt})
      && (src[pos] == '!' && At(src, pos + 1) != '=' ==> kind == Unknown)
  {
  }

  /** A comment and the blanks around it produce no token, and the newline
      that ends the comment is still counted. */
  lemma CommentExample()
    ensures TokenStream("1 // c\n2") == [Token(IntegerLiteral, "1", 1), Token(IntegerLiteral, "2", 2), Token(Eof, "EOF", 2)]
  {
    var src := "1 // c\n2";
    assert DigitsEnd(src, 1) == 1 && DigitsEnd(src, 0) == 1;
    assert DigitsEnd(src, 8) == 8 && DigitsEnd(src, 7) == 8;
    assert CommentEnd(src, 6) == 6 && CommentEnd(src, 5) == 6 && CommentEnd(src, 4) == 6 && CommentEnd(src, 3) == 6;
    assert LexemeAt(src, 0) == (IntegerLiteral, 1);
    assert LexemeAt(src, 7) == (IntegerLiteral, 8);
    assert src[0..1] == "1" && src[7..8] == "2";
    var s8 := [Spanned(Token(Eof, "EOF", 2), 8, 8)];
    assert ScanFrom(src, 8, 2) == s8;
    var s7 := [Spanned(Token(IntegerLiteral, "2", 2), 7, 8)] + s8;
    assert ScanFrom(src, 7, 2) == s7;
    assert ScanFrom(src, 6, 1) == s7;
    assert ScanFrom(src, 2, 1) == s7;
    assert ScanFrom(src, 1, 1) == s7;
    assert ScanFrom(src, 0, 1) == [Spanned(Token(IntegerLiteral, "1", 1), 0, 1)] + s7;
  }
}
