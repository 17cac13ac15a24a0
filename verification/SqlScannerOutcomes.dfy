/** The scanner told from the writer's side: what is written as one token is read as one, and which words it stops at. */
module SqlScannerOutcomes {
  import opened Basics
  import opened SqlScanner

  // ----- searches

  lemma StartsWithBoth(s: string, i: nat, a: string, b: string)
    requires StartsWith(s, i, a + b)
    ensures StartsWith(s, i, a) && StartsWith(s, i + |a|, b)
  {
    assert s[i..i + |a|] == s[i..i + |a + b|][..|a|];
    assert s[i + |a|..i + |a| + |b|] == s[i..i + |a + b|][|a|..];
  }

  lemma CharAt(s: string, i: nat, p: string, k: nat)
    requires StartsWith(s, i, p) && k < |p|
    ensures s[i + k] == p[k]
  {
    assert s[i..i + |p|][k] == p[k];
  }

  lemma OneChar(s: string, i: nat, a: char)
    ensures StartsWith(s, i, [a]) <==> i < |s| && s[i] == a
  {
    if i < |s| {
      assert s[i..i + 1] == [s[i]];
    }
  }

  lemma TwoChars(s: string, i: nat, a: char, b: char)
    ensures StartsWith(s, i, [a, b]) <==> i + 1 < |s| && s[i] == a && s[i + 1] == b
  {
    if i + 1 < |s| {
      assert s[i..i + 2] == [s[i], s[i + 1]];
    }
  }

  lemma FoundFirst(s: string, i: nat, p: string, k: nat)
    requires i <= k && StartsWith(s, k, p) && forall j | i <= j < k :: !StartsWith(s, j, p)
    ensures i <= |s| && Find(s, i, p) == Some(k)
  {
    assert k <= |s|;
  }

  // ----- comments

  /** What stands in a comment: characters other than * and /, and comments. */
  datatype Inner = Nothing | Plain(c: char, more: Inner) | Comment(inside: Inner, more: Inner)

  predicate IsPlain(inner: Inner) {
    match inner
    case Nothing => true
    case Plain(c, more) => c != '*' && c != '/' && IsPlain(more)
    case Comment(inside, more) => IsPlain(inside) && IsPlain(more)
  }

  function Text(inner: Inner): string {
    match inner
    case Nothing => ""
    case Plain(c, more) => [c] + Text(more)
    case Comment(inside, more) => "/*" + (Text(inside) + ("*/" + Text(more)))
  }

  lemma PlainStep(s: string, i: nat, depth: nat)
    requires i < |s| && s[i] != '*' && s[i] != '/'
    ensures CommentEnd(s, i, depth + 1) == CommentEnd(s, i + 1, depth + 1)
  {
    TwoChars(s, i, '/', '*');
    TwoChars(s, i, '*', '/');
  }

  lemma OpenStep(s: string, i: nat, depth: nat)
    requires i + 1 < |s| && s[i] == '/' && s[i + 1] == '*'
    ensures CommentEnd(s, i, depth + 1) == CommentEnd(s, i + 2, depth + 2)
  {
    TwoChars(s, i, '/', '*');
  }

  lemma CloseStep(s: string, i: nat, depth: nat)
    requires i + 1 < |s| && s[i] == '*' && s[i + 1] == '/'
    ensures CommentEnd(s, i, depth + 1) == CommentEnd(s, i + 2, depth)
  {
    TwoChars(s, i, '/', '*');
    TwoChars(s, i, '*', '/');
  }

  /** What stands in a comment is passed over, whatever comments are nested in it. */
  lemma {:induction false} InnerIsPassedOver(s: string, i: nat, inner: Inner, depth: nat)
    requires IsPlain(inner) && StartsWith(s, i, Text(inner))
    ensures CommentEnd(s, i, depth + 1) == CommentEnd(s, i + |Text(inner)|, depth + 1)
    decreases inner, 0
  {
    match inner {
      case Nothing =>
      case Plain(c, more) =>
        PlainIsPassedOver(s, i, c, Text(more), depth);
        InnerIsPassedOver(s, i + 1, more, depth);
      case Comment(inside, more) =>
        var next := CommentIsPassedOver(s, i, inside, Text(more), depth);
        InnerIsPassedOver(s, next, more, depth);
    }
  }

  lemma PlainIsPassedOver(s: string, i: nat, c: char, rest: string, depth: nat)
    requires c != '*' && c != '/' && StartsWith(s, i, [c] + rest)
    ensures CommentEnd(s, i, depth + 1) == CommentEnd(s, i + 1, depth + 1) && StartsWith(s, i + 1, rest)
  {
    CharAt(s, i, [c] + rest, 0);
    PlainStep(s, i, depth);
    StartsWithBoth(s, i, [c], rest);
  }

  lemma {:induction false} CommentIsPassedOver(s: string, i: nat, inside: Inner, rest: string, depth: nat) returns (next: nat)
    requires IsPlain(inside) && StartsWith(s, i, "/*" + (Text(inside) + ("*/" + rest)))
    ensures next == i + 4 + |Text(inside)| && StartsWith(s, next, rest)
    ensures CommentEnd(s, i, depth + 1) == CommentEnd(s, next, depth + 1)
    decreases inside, 1
  {
    var end := CommentParts(s, i, Text(inside), rest);
    InnerIsPassedOver(s, i + 2, inside, depth + 1);
    Nested(s, i, end, depth);
    next := end + 2;
  }

  lemma Nested(s: string, i: nat, end: nat, depth: nat)
    requires i + 2 <= end && end + 1 < |s|
    requires s[i] == '/' && s[i + 1] == '*' && s[end] == '*' && s[end + 1] == '/'
    requires CommentEnd(s, i + 2, depth + 2) == CommentEnd(s, end, depth + 2)
    ensures CommentEnd(s, i, depth + 1) == CommentEnd(s, end + 2, depth + 1)
  {
    OpenStep(s, i, depth);
    CloseStep(s, end, depth + 1);
  }

  lemma CommentParts(s: string, i: nat, inside: string, rest: string) returns (end: nat)
    requires StartsWith(s, i, "/*" + (inside + ("*/" + rest)))
    ensures end == i + 2 + |inside| && end + 2 + |rest| <= |s|
    ensures s[i] == '/' && s[i + 1] == '*' && s[end] == '*' && s[end + 1] == '/'
    ensures StartsWith(s, i + 2, inside) && StartsWith(s, end + 2, rest)
  {
    end := i + 2 + |inside|;
    StartsWithBoth(s, i, "/*", inside + ("*/" + rest));
    StartsWithBoth(s, i + 2, inside, "*/" + rest);
    StartsWithBoth(s, end, "*/", rest);
    BothChars(s, i, '/', '*');
    BothChars(s, end, '*', '/');
  }

  lemma BothChars(s: string, i: nat, a: char, b: char)
    requires StartsWith(s, i, [a, b])
    ensures i + 1 < |s| && s[i] == a && s[i + 1] == b
  {
    CharAt(s, i, [a, b], 0);
    CharAt(s, i, [a, b], 1);
  }

  lemma CommentCloses(s: string, i: nat, inner: Inner)
    requires IsPlain(inner) && StartsWith(s, i, Text(inner)) && StartsWith(s, i + |Text(inner)|, "*/")
    ensures CommentEnd(s, i, 1) == Some(i + |Text(inner)| + 2)
  {
    var end := i + |Text(inner)|;
    assert CommentEnd(s, end, 1) == Some(end + 2) by {
      BothChars(s, end, '*', '/');
      CloseStep(s, end, 0);
    }
    InnerIsPassedOver(s, i, inner, 0);
  }

  // ----- one token at a time

  datatype Lexeme =
    | Line(text: string, ended: bool)
    | Block(inner: Inner)
    | Literal(quote: char, content: string)
    | Dollar(tag: string, body: string)
    | Separator
    | Name(name: string)
    | Sign(c: char)

  function Mark(tag: string): string {
    "$" + tag + "$"
  }

  function Written(l: Lexeme): string {
    match l
    case Line(text, ended) => "--" + (text + (if ended then "\n" else ""))
    case Block(inner) => "/*" + (Text(inner) + "*/")
    case Literal(quote, content) => [quote] + (Doubled(content, quote) + [quote])
    case Dollar(tag, body) => Mark(tag) + (body + Mark(tag))
    case Separator => ";"
    case Name(name) => name
    case Sign(c) => [c]
  }

  function KindOf(l: Lexeme): Kind {
    match l
    case Line(_, _) => LineComment
    case Block(_) => BlockComment
    case Literal(_, _) => Quoted
    case Dollar(_, _) => DollarBody
    case Separator => Semicolon
    case Name(_) => Word
    case Sign(_) => Other
  }

  predicate IsAsciiLetter(c: char) {
    'a' <= c <= 'z' || 'A' <= c <= 'Z'
  }

  predicate IsTag(tag: string) {
    forall i | 0 <= i < |tag| :: IsAsciiLetter(tag[i]) || '0' <= tag[i] <= '9' || tag[i] == '_'
  }

  /** The lexeme is well-formed and stays apart from what comes after it. */
  ghost predicate Fits(l: Lexeme, after: string) {
    match l
    case Line(text, ended) => '\n' !in text && (ended || after == "")
    case Block(inner) => IsPlain(inner)
    case Literal(quote, _) => quote in "'\"" && (after == "" || after[0] != quote)
    case Dollar(tag, body) => IsTag(tag) && forall i | 0 <= i < |body| :: !StartsWith(body + Mark(tag), i, Mark(tag))
    case Separator => true
    case Name(name) =>
      && name != "" && IsAsciiLetter(name[0]) && (forall i | 0 <= i < |name| :: IsAsciiLetter(name[i]) || name[i] == '_')
      && (after == "" || (!IsAsciiLetter(after[0]) && after[0] != '_'))
    case Sign(c) =>
      && !IsAsciiLetter(c) && c !in "'\";"
      && (c == '-' ==> after == "" || after[0] != '-') && (c == '/' ==> after == "" || after[0] != '*')
      && (c == '$' ==> forall k | 0 <= k < |after| && after[k] == '$' :: !IsTag(after[..k]))
  }

  lemma NoCommentStarts(s: string, i: nat)
    requires i < |s| && s[i] != '-' && s[i] != '/'
    ensures !StartsWith(s, i, "--") && !StartsWith(s, i, "/*")
  {
    TwoChars(s, i, '-', '-');
    TwoChars(s, i, '/', '*');
  }

  lemma {:induction false} LineIsPassedOver(s: string, i: nat, text: string)
    requires StartsWith(s, i, text) && '\n' !in text
    ensures LineEnd(s, i) == LineEnd(s, i + |text|)
    decreases |text|
  {
    if text != "" {
      CharAt(s, i, text, 0);
      assert text == [text[0]] + text[1..];
      StartsWithBoth(s, i, [text[0]], text[1..]);
      LineIsPassedOver(s, i + 1, text[1..]);
    }
  }

  lemma LineIsOneToken(s: string, i: nat, text: string, ended: bool)
    requires StartsWith(s, i, Written(Line(text, ended)))
    requires Fits(Line(text, ended), s[i + |Written(Line(text, ended))|..])
    ensures Lex(s, i) == Found(Token(LineComment, i, i + |Written(Line(text, ended))|))
  {
    var mark := if ended then "\n" else "";
    StartsWithBoth(s, i, "--", text + mark);
    StartsWithBoth(s, i + 2, text, mark);
    LineIsPassedOver(s, i, "--");
    LineIsPassedOver(s, i + 2, text);
    if ended {
      CharAt(s, i + 2 + |text|, "\n", 0);
    }
  }

  lemma BlockIsOneToken(s: string, i: nat, inner: Inner)
    requires IsPlain(inner) && StartsWith(s, i, Written(Block(inner)))
    ensures Lex(s, i) == Found(Token(BlockComment, i, i + |Written(Block(inner))|))
  {
    var text := Text(inner);
    StartsWithBoth(s, i, "/*", text + "*/");
    StartsWithBoth(s, i + 2, text, "*/");
    CharAt(s, i, "/*", 0);
    TwoChars(s, i, '-', '-');
    CommentCloses(s, i + 2, inner);
  }

  lemma {:induction false} LiteralEnds(s: string, i: nat, content: string, quote: char)
    requires StartsWith(s, i, Doubled(content, quote))
    ensures StringEnd(s, i, quote) == StringEnd(s, i + |Doubled(content, quote)|, quote)
    decreases |content|
  {
    if content != "" {
      var head := if content[0] == quote then [quote, quote] else [content[0]];
      StartsWithBoth(s, i, head, Doubled(content[1..], quote));
      CharAt(s, i, head, 0);
      CharAt(s, i, head, |head| - 1);
      LiteralEnds(s, i + |head|, content[1..], quote);
    }
  }

  lemma LiteralCloses(s: string, i: nat, quote: char, content: string) returns (end: nat)
    requires StartsWith(s, i, Written(Literal(quote, content)))
    requires Fits(Literal(quote, content), s[i + |Written(Literal(quote, content))|..])
    ensures i < |s| && s[i] == quote && end == i + |Written(Literal(quote, content))|
    ensures StringEnd(s, i + 1, quote) == Some(end)
  {
    end := LiteralParts(s, i, quote, content);
    LiteralEnds(s, i + 1, content, quote);
    QuoteCloses(s, end - 1, quote);
  }

  lemma LiteralParts(s: string, i: nat, quote: char, content: string) returns (end: nat)
    requires StartsWith(s, i, Written(Literal(quote, content)))
    requires var end := i + |Written(Literal(quote, content))|; s[end..] == "" || s[end..][0] != quote
    ensures i < |s| && s[i] == quote && StartsWith(s, i + 1, Doubled(content, quote))
    ensures end == i + |Written(Literal(quote, content))| == i + 2 + |Doubled(content, quote)| <= |s|
    ensures s[end - 1] == quote && (end == |s| || s[end] != quote)
  {
    var text := Doubled(content, quote);
    end := i + 2 + |text|;
    StartsWithBoth(s, i, [quote], text + [quote]);
    StartsWithBoth(s, i + 1, text, [quote]);
    CharAt(s, i, [quote], 0);
    CharAt(s, end - 1, [quote], 0);
    assert end < |s| ==> s[end] == s[end..][0];
  }

  lemma LiteralIsOneToken(s: string, i: nat, quote: char, content: string)
    requires StartsWith(s, i, Written(Literal(quote, content)))
    requires Fits(Literal(quote, content), s[i + |Written(Literal(quote, content))|..])
    ensures Lex(s, i) == Found(Token(Quoted, i, i + |Written(Literal(quote, content))|))
  {
    var end := LiteralCloses(s, i, quote, content);
    NoCommentStarts(s, i);
  }

  lemma QuoteCloses(s: string, end: nat, quote: char)
    requires end < |s| && s[end] == quote && (end + 1 == |s| || s[end + 1] != quote)
    ensures StringEnd(s, end, quote) == Some(end + 1)
  {
  }

  lemma TagIsRead(s: string, i: nat, tag: string)
    requires IsTag(tag) && StartsWith(s, i, Mark(tag))
    ensures TagEnd(s, i) == Some(i + |tag| + 2)
  {
    var end := i + 1 + |tag|;
    forall j | i < j < end ensures IsTagChar(s[j]) && !StartsWith(s, j, "$") {
      CharAt(s, i, Mark(tag), j - i);
      OneChar(s, j, '$');
    }
    CharAt(s, i, Mark(tag), 0);
    CharAt(s, i, Mark(tag), |tag| + 1);
    OneChar(s, end, '$');
    FoundFirst(s, i + 1, "$", end);
  }

  lemma SliceOfSlice(s: string, a: nat, n: nat, b: nat, m: nat)
    requires a + n <= |s| && b + m <= n
    ensures s[a..a + n][b..b + m] == s[a + b..a + b + m]
  {
    var x, y := s[a..a + n][b..b + m], s[a + b..a + b + m];
    forall k | 0 <= k < m ensures x[k] == y[k] {
      assert x[k] == s[a..a + n][b + k];
    }
  }

  lemma BodyEnds(s: string, from: nat, mark: string, body: string)
    requires StartsWith(s, from, body + mark) && forall i | 0 <= i < |body| :: !StartsWith(body + mark, i, mark)
    ensures Find(s, from, mark) == Some(from + |body|)
  {
    StartsWithBoth(s, from, body, mark);
    forall j | from <= j < from + |body| ensures !StartsWith(s, j, mark) {
      assert !StartsWith(body + mark, j - from, mark);
      SliceOfSlice(s, from, |body + mark|, j - from, |mark|);
    }
    FoundFirst(s, from, mark, from + |body|);
  }

  lemma DollarIsOneToken(s: string, i: nat, tag: string, body: string)
    requires StartsWith(s, i, Written(Dollar(tag, body))) && Fits(Dollar(tag, body), "")
    ensures Lex(s, i) == Found(Token(DollarBody, i, i + |Written(Dollar(tag, body))|))
  {
    var mark := Mark(tag);
    StartsWithBoth(s, i, mark, body + mark);
    CharAt(s, i, mark, 0);
    NoCommentStarts(s, i);
    TagIsRead(s, i, tag);
    BodyEnds(s, i + |mark|, mark, body);
  }

  lemma NameIsOneToken(s: string, i: nat, name: string)
    requires StartsWith(s, i, name) && Fits(Name(name), s[i + |name|..])
    ensures Lex(s, i) == Found(Token(Word, i, i + |name|))
  {
    forall k | i <= k < i + |name| ensures IsLetter(s[k]) || s[k] == '_' {
      CharAt(s, i, name, k - i);
    }
    CharAt(s, i, name, 0);
    NoCommentStarts(s, i);
    assert i + |name| < |s| ==> s[i + |name|] == s[i + |name|..][0];
    var e := WordEnd(s, i);
  }

  lemma SignIsOneToken(s: string, i: nat, c: char)
    requires i < |s| && s[i] == c && Fits(Sign(c), s[i + 1..])
    ensures Lex(s, i) == Found(Token(Other, i, i + 1))
  {
    TwoChars(s, i, '-', '-');
    TwoChars(s, i, '/', '*');
    var after := s[i + 1..];
    assert after != "" ==> s[i + 1] == after[0];
    if c == '$' {
      NoTagHere(s, i, after);
    }
  }

  lemma NoTagHere(s: string, i: nat, after: string)
    requires i < |s| && after == s[i + 1..] && forall k | 0 <= k < |after| && after[k] == '$' :: !IsTag(after[..k])
    ensures TagEnd(s, i).None?
  {
    var end := Find(s, i + 1, "$");
    if end.Some? {
      var k := end.value - i - 1;
      OneChar(s, end.value, '$');
      assert after[k] == '$';
      var j :| 0 <= j < k && !IsTagChar(after[..k][j]);
      assert s[i + 1 + j] == after[j];
    }
  }

  /** What is written as one lexeme is read as one token, of the right kind and to its last character. */
  lemma LexemesAreTokens(s: string, i: nat, l: Lexeme)
    requires StartsWith(s, i, Written(l)) && Fits(l, s[i + |Written(l)|..])
    ensures Written(l) != "" && Lex(s, i) == Found(Token(KindOf(l), i, i + |Written(l)|))
  {
    match l {
      case Line(text, ended) => LineIsOneToken(s, i, text, ended);
      case Block(inner) => BlockIsOneToken(s, i, inner);
      case Literal(quote, content) => LiteralIsOneToken(s, i, quote, content);
      case Dollar(tag, body) => DollarIsOneToken(s, i, tag, body);
      case Separator =>
        CharAt(s, i, ";", 0);
        NoCommentStarts(s, i);
      case Name(name) => NameIsOneToken(s, i, name);
      case Sign(c) =>
        CharAt(s, i, [c], 0);
        SignIsOneToken(s, i, c);
    }
  }

  // ----- a whole text

  datatype Lexemes = End | Then(first: Lexeme, rest: Lexemes)

  function AllWritten(ls: Lexemes): string {
    match ls
    case End => ""
    case Then(first, rest) => Written(first) + AllWritten(rest)
  }

  ghost predicate AllFit(ls: Lexemes) {
    match ls
    case End => true
    case Then(first, rest) => Fits(first, AllWritten(rest)) && AllFit(rest)
  }

  function TokensFrom(ls: Lexemes, i: nat): seq<Token> {
    match ls
    case End => []
    case Then(first, rest) =>
      var end := i + |Written(first)|;
      [Token(KindOf(first), i, end)] + TokensFrom(rest, end)
  }

  /** Token by token, the text from i on is read as these lexemes. */
  ghost predicate AreRead(s: string, i: nat, ls: Lexemes)
    decreases ls
  {
    match ls
    case End => i == |s|
    case Then(first, rest) =>
      var end := i + |Written(first)|;
      i < |s| && Lex(s, i) == Found(Token(KindOf(first), i, end)) && AreRead(s, end, rest)
  }

  lemma {:induction false} LexemesAreRead(s: string, i: nat, ls: Lexemes)
    requires AllFit(ls) && i <= |s| && s[i..] == AllWritten(ls)
    ensures AreRead(s, i, ls)
    decreases ls
  {
    if ls.Then? {
      var end := FirstToken(s, i, ls.first, ls.rest);
      LexemesAreRead(s, end, ls.rest);
    }
  }

  lemma {:induction false} ReadingGivesTokens(s: string, i: nat, ls: Lexemes)
    requires AreRead(s, i, ls) && i <= |s|
    ensures Tokens(s, i) == Some(TokensFrom(ls, i))
    decreases ls
  {
    if ls.Then? {
      var end := i + |Written(ls.first)|;
      ReadingGivesTokens(s, end, ls.rest);
      OneTokenMore(s, i, Token(KindOf(ls.first), i, end), TokensFrom(ls.rest, end));
    }
  }

  lemma OneTokenMore(s: string, i: nat, t: Token, rest: seq<Token>)
    requires i < |s| && Lex(s, i) == Found(t) && Tokens(s, t.to) == Some(rest)
    ensures Tokens(s, i) == Some([t] + rest)
  {
  }

  /** Tokenizing undoes writing: every text of lexemes that stay apart is read back as they were written. */
  lemma TokensUndoWriting(ls: Lexemes)
    requires AllFit(ls)
    ensures Tokens(AllWritten(ls), 0) == Some(TokensFrom(ls, 0))
  {
    var s := AllWritten(ls);
    assert s[0..] == s;
    LexemesAreRead(s, 0, ls);
    ReadingGivesTokens(s, 0, ls);
  }

  lemma FirstToken(s: string, i: nat, first: Lexeme, rest: Lexemes) returns (end: nat)
    requires Fits(first, AllWritten(rest)) && i <= |s| && s[i..] == Written(first) + AllWritten(rest)
    ensures i < end == i + |Written(first)| <= |s| && s[end..] == AllWritten(rest)
    ensures Lex(s, i) == Found(Token(KindOf(first), i, end))
  {
    var text, after := Written(first), AllWritten(rest);
    end := i + |text|;
    Cut(s, i, text, after);
    LexemesAreTokens(s, i, first);
  }

  lemma Cut(s: string, i: nat, first: string, rest: string)
    requires i <= |s| && s[i..] == first + rest
    ensures StartsWith(s, i, first) && s[i + |first|..] == rest
  {
    assert s[i..i + |first|] == s[i..][..|first|];
    assert s[i + |first|..] == s[i..][|first|..];
  }

  // ----- what does not close

  lemma OpenCommentIsReported(s: string, i: nat, inner: Inner)
    requires IsPlain(inner) && i <= |s| && s[i..] == "/*" + Text(inner)
    ensures Lex(s, i) == Broken(UnterminatedComment)
  {
    StartsWithBoth(s, i, "/*", Text(inner));
    CharAt(s, i, "/*", 0);
    TwoChars(s, i, '-', '-');
    InnerIsPassedOver(s, i + 2, inner, 0);
  }

  lemma OpenStringIsReported(s: string, i: nat, content: string, quote: char)
    requires quote in "'\"" && i <= |s| && s[i..] == [quote] + Doubled(content, quote)
    ensures Lex(s, i) == Broken(UnterminatedString)
  {
    StartsWithBoth(s, i, [quote], Doubled(content, quote));
    CharAt(s, i, [quote], 0);
    NoCommentStarts(s, i);
    LiteralEnds(s, i + 1, content, quote);
  }

  lemma OpenBodyIsReported(s: string, i: nat, tag: string, body: string)
    requires IsTag(tag) && i <= |s| && s[i..] == Mark(tag) + body && forall k: nat :: !StartsWith(body, k, Mark(tag))
    ensures Lex(s, i) == Broken(UnterminatedBody)
  {
    var mark := Mark(tag);
    Cut(s, i, mark, body);
    CharAt(s, i, mark, 0);
    NoCommentStarts(s, i);
    TagIsRead(s, i, tag);
    NowhereInTheRest(s, i + |mark|, mark, body);
  }

  lemma NowhereInTheRest(s: string, from: nat, mark: string, body: string)
    requires from <= |s| && s[from..] == body && forall k: nat :: !StartsWith(body, k, mark)
    ensures Find(s, from, mark).None?
  {
    assert s[from..from + |body|] == body;
    if Find(s, from, mark).Some? {
      var k := Find(s, from, mark).value;
      assert !StartsWith(body, k - from, mark);
      SliceOfSlice(s, from, |body|, k - from, |mark|);
    }
  }

  // ----- keywords

  /** The same letters, in either case. */
  predicate Spells(word: string, keyword: string) {
    |word| == |keyword| && forall i | 0 <= i < |word| :: word[i] == keyword[i] || word[i] as int == keyword[i] as int + 32
  }

  lemma SpellsExactly(word: string, keyword: string)
    requires forall i | 0 <= i < |keyword| :: 'A' <= keyword[i] <= 'Z'
    ensures Upper(word) == keyword <==> Spells(word, keyword)
  {
    if Upper(word) == keyword {
      forall i | 0 <= i < |word| ensures word[i] == keyword[i] || word[i] as int == keyword[i] as int + 32 {
        assert Upper(word)[i] == keyword[i];
      }
    }
    if Spells(word, keyword) {
      forall i | 0 <= i < |word| ensures Upper(word)[i] == keyword[i] {
      }
    }
  }

  /** The words that control a transaction, in any mix of cases, and no others. */
  lemma ControlWordsExactly(word: string)
    ensures IsControl(word) <==>
              || Spells(word, "BEGIN") || Spells(word, "COMMIT") || Spells(word, "END") || Spells(word, "ROLLBACK")
              || Spells(word, "START") || Spells(word, "ABORT") || Spells(word, "PREPARE")
  {
    SpellsExactly(word, "BEGIN");
    SpellsExactly(word, "COMMIT");
    SpellsExactly(word, "END");
    SpellsExactly(word, "ROLLBACK");
    SpellsExactly(word, "START");
    SpellsExactly(word, "ABORT");
    SpellsExactly(word, "PREPARE");
  }

  // ----- the frame

  /** The characters that Unicode calls white space. */
  const SPACES := {'\t', '\n', '\U{0B}', '\U{0C}', '\r', ' ', '\U{85}', '\U{A0}', '\U{1680}', '\U{2000}', '\U{2001}', '\U{2002}',
                   '\U{2003}', '\U{2004}', '\U{2005}', '\U{2006}', '\U{2007}', '\U{2008}', '\U{2009}', '\U{200A}', '\U{2028}',
                   '\U{2029}', '\U{202F}', '\U{205F}', '\U{3000}'}

  predicate IsBlank(s: string) {
    forall i | 0 <= i < |s| :: s[i] in SPACES
  }

  lemma SpacesExactly(c: char)
    ensures IsSpace(c) <==> c in SPACES
  {
  }

  lemma {:induction false} LeftIsTrimmed(left: string, s: string)
    requires IsBlank(left) && (s == "" || s[0] !in SPACES)
    ensures TrimLeft(left + s) == s
  {
    if left == "" {
      assert left + s == s;
      if s != "" {
        SpacesExactly(s[0]);
      }
    } else {
      assert (left + s)[1..] == left[1..] + s;
      SpacesExactly(left[0]);
      LeftIsTrimmed(left[1..], s);
    }
  }

  lemma {:induction false} RightIsTrimmed(s: string, right: string)
    requires IsBlank(right) && (s == "" || s[|s| - 1] !in SPACES)
    ensures TrimRight(s + right) == s
  {
    if right == "" {
      assert s + right == s;
      if s != "" {
        SpacesExactly(s[|s| - 1]);
      }
    } else {
      assert (s + right)[..|s + right| - 1] == s + right[..|right| - 1];
      SpacesExactly(right[|right| - 1]);
      RightIsTrimmed(s, right[..|right| - 1]);
    }
  }

  predicate IsBare(s: string) {
    s == "" || (s[0] !in SPACES && s[|s| - 1] !in SPACES)
  }

  /** Trimming removes the white space around a text and nothing else. */
  lemma TrimmingRemovesTheSpaceAround(left: string, s: string, right: string)
    requires IsBlank(left) && IsBare(s) && IsBlank(right)
    ensures Trim(left + s + right) == s
  {
    if s == "" {
      assert IsBlank(left + right) && left + s + right == (left + right) + "";
      LeftIsTrimmed(left + right, "");
    } else {
      assert left + s + right == left + (s + right);
      LeftIsTrimmed(left, s + right);
      RightIsTrimmed(s, right);
    }
  }

  /** A text between BEGIN; and COMMIT; is taken for what stands between, white space around all of them or none. */
  lemma FrameIsRemoved(left: string, inLeft: string, s: string, inRight: string, right: string)
    requires IsBlank(left) && IsBlank(inLeft) && IsBare(s) && IsBlank(inRight) && IsBlank(right)
    ensures Body(left + ("BEGIN;" + (inLeft + s + inRight) + "COMMIT;") + right) == s
  {
    var inside := inLeft + s + inRight;
    var framed := "BEGIN;" + inside + "COMMIT;";
    assert framed[0] == 'B' && framed[|framed| - 1] == ';';
    TrimmingRemovesTheSpaceAround(left, framed, right);
    var tail := inside + "COMMIT;";
    assert framed == "BEGIN;" + tail;
    assert framed[0..6] == "BEGIN;" && framed[6..] == tail;
    assert tail[|inside|..] == "COMMIT;" && tail[..|inside|] == inside;
    assert framed[|framed| - 7..] == tail[|inside|..];
    TrimmingRemovesTheSpaceAround(inLeft, s, inRight);
  }

  /** A text without that frame is taken as it stands. */
  lemma UnframedTextIsTakenAsItStands(left: string, s: string, right: string)
    requires IsBlank(left) && IsBare(s) && IsBlank(right)
    requires |s| < 6 || s[..6] != "BEGIN;" || |s| < 7 || s[|s| - 7..] != "COMMIT;"
    ensures Body(left + s + right) == s
  {
    TrimmingRemovesTheSpaceAround(left, s, right);
    assert |s| >= 6 ==> s[0..6] == s[..6];
  }

  /** Nothing at all is no migration. */
  lemma NothingIsRefused(left: string)
    requires IsBlank(left)
    ensures AtomicSql(left) == Refused(EmptyMigration)
  {
    assert left + "" + "" == left;
    UnframedTextIsTakenAsItStands(left, "", "");
  }
}
