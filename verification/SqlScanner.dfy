/** The scanner that keeps transaction control out of migration texts. */
module SqlScanner {
  import opened Basics

  datatype Problem = UnterminatedComment | UnterminatedString | UnterminatedBody | TransactionControl | EmptyMigration

  datatype Outcome = Accepted(sql: string) | Refused(problem: Problem)

  // ----- characters and searches

  /** Go's unicode.IsSpace. */
  predicate IsSpace(c: char) {
    || '\t' <= c <= '\r' || c == ' ' || c == '\U{85}' || c == '\U{A0}' || c == '\U{1680}' || '\U{2000}' <= c <= '\U{200A}'
    || c == '\U{2028}' || c == '\U{2029}' || c == '\U{202F}' || c == '\U{205F}' || c == '\U{3000}'
  }

  predicate IsLetter(c: char) {
    'a' <= c <= 'z' || 'A' <= c <= 'Z'
  }

  predicate IsTagChar(c: char) {
    IsLetter(c) || '0' <= c <= '9' || c == '_'
  }

  predicate StartsWith(s: string, i: nat, p: string) {
    i + |p| <= |s| && s[i..i + |p|] == p
  }

  predicate EndsWith(s: string, p: string) {
    |p| <= |s| && s[|s| - |p|..] == p
  }

  /** The first place at or after i where p occurs. */
  function Find(s: string, i: nat, p: string): (r: Option<nat>)
    requires i <= |s|
    ensures r.Some? ==> i <= r.value && StartsWith(s, r.value, p) && forall k | i <= k < r.value :: !StartsWith(s, k, p)
    ensures r.None? ==> forall k | i <= k :: !StartsWith(s, k, p)
    decreases |s| - i
  {
    if StartsWith(s, i, p) then Some(i) else if i == |s| then None else Find(s, i + 1, p)
  }

  function TrimLeft(s: string): string {
    if s != "" && IsSpace(s[0]) then TrimLeft(s[1..]) else s
  }

  function TrimRight(s: string): string {
    if s != "" && IsSpace(s[|s| - 1]) then TrimRight(s[..|s| - 1]) else s
  }

  function Trim(s: string): string {
    TrimRight(TrimLeft(s))
  }

  function Upper(s: string): string {
    seq(|s|, i requires 0 <= i < |s| => if 'a' <= s[i] <= 'z' then s[i] - 32 as char else s[i])
  }

  predicate IsControl(word: string) {
    Upper(word) in {"BEGIN", "COMMIT", "END", "ROLLBACK", "START", "ABORT", "PREPARE"}
  }

  // ----- the reference tokenizer

  datatype Kind = LineComment | BlockComment | Quoted | DollarBody | Semicolon | Word | Other

  datatype Token = Token(kind: Kind, from: nat, to: nat)

  /** Just past the end of the line that i is on. */
  function LineEnd(s: string, i: nat): (e: nat)
    requires i <= |s|
    ensures i <= e <= |s| && (i < |s| ==> i < e)
    decreases |s| - i
  {
    if i == |s| then i else if s[i] == '\n' then i + 1 else LineEnd(s, i + 1)
  }

  /** Just past the comment that is open at i, `depth` levels deep. */
  function CommentEnd(s: string, i: nat, depth: nat): (r: Option<nat>)
    requires i <= |s|
    ensures r.Some? ==> i <= r.value <= |s|
    decreases |s| - i
  {
    if depth == 0 then Some(i)
    else if i == |s| then None
    else if StartsWith(s, i, "/*") then CommentEnd(s, i + 2, depth + 1)
    else if StartsWith(s, i, "*/") then CommentEnd(s, i + 2, depth - 1)
    else CommentEnd(s, i + 1, depth)
  }

  /** Just past the string that is open at i; a doubled quote stands for itself. */
  function StringEnd(s: string, i: nat, quote: char): (r: Option<nat>)
    requires i <= |s|
    ensures r.Some? ==> i < r.value <= |s|
    decreases |s| - i
  {
    if i == |s| then None
    else if s[i] != quote then StringEnd(s, i + 1, quote)
    else if i + 1 < |s| && s[i + 1] == quote then StringEnd(s, i + 2, quote)
    else Some(i + 1)
  }

  /** The dollar tag that starts at i, if one does. */
  function TagEnd(s: string, i: nat): (r: Option<nat>)
    requires i < |s|
    ensures r.Some? ==> i + 2 <= r.value <= |s|
  {
    var end := Find(s, i + 1, "$");
    if s[i] == '$' && end.Some? && (forall k | i < k < end.value :: IsTagChar(s[k])) then Some(end.value + 1) else None
  }

  function WordEnd(s: string, i: nat): (e: nat)
    requires i <= |s|
    ensures i <= e <= |s|
    ensures forall k | i <= k < e :: IsLetter(s[k]) || s[k] == '_'
    ensures e < |s| ==> !IsLetter(s[e]) && s[e] != '_'
    decreases |s| - i
  {
    if i < |s| && (IsLetter(s[i]) || s[i] == '_') then WordEnd(s, i + 1) else i
  }

  datatype Lexed = Found(token: Token) | Broken(problem: Problem)

  /** The token that starts at i. */
  function Lex(s: string, i: nat): (r: Lexed)
    requires i < |s|
    ensures r.Found? ==> r.token.from == i < r.token.to <= |s|
  {
    if StartsWith(s, i, "--") then Found(Token(LineComment, i, LineEnd(s, i)))
    else if StartsWith(s, i, "/*") then
      match CommentEnd(s, i + 2, 1)
      case None => Broken(UnterminatedComment)
      case Some(e) => Found(Token(BlockComment, i, e))
    else if s[i] == '\'' || s[i] == '"' then
      match StringEnd(s, i + 1, s[i])
      case None => Broken(UnterminatedString)
      case Some(e) => Found(Token(Quoted, i, e))
    else if TagEnd(s, i).Some? then
      var tagEnd := TagEnd(s, i).value;
      match Find(s, tagEnd, s[i..tagEnd])
      case None => Broken(UnterminatedBody)
      case Some(stop) => Found(Token(DollarBody, i, stop + (tagEnd - i)))
    else if s[i] == ';' then Found(Token(Semicolon, i, i + 1))
    else if IsLetter(s[i]) then Found(Token(Word, i, WordEnd(s, i)))
    else Found(Token(Other, i, i + 1))
  }

  /** All tokens from i on, when every comment, string and dollar body closes. */
  function Tokens(s: string, i: nat): (r: Option<seq<Token>>)
    requires i <= |s|
    decreases |s| - i
  {
    if i == |s| then Some([])
    else
      match Lex(s, i)
      case Broken(_) => None
      case Found(t) =>
        var rest := Tokens(s, t.to);
        if rest.None? then None else Some([t] + rest.value)
  }

  predicate Inside(s: string, ts: seq<Token>) {
    forall k | 0 <= k < |ts| :: ts[k].from < ts[k].to <= |s|
  }

  lemma {:induction false} TokensAreInside(s: string, i: nat)
    requires i <= |s|
    ensures Tokens(s, i).Some? ==> Inside(s, Tokens(s, i).value)
    decreases |s| - i
  {
    if i < |s| && Lex(s, i).Found? {
      TokensAreInside(s, Lex(s, i).token.to);
    }
  }

  /** The tokens cut the text into contiguous pieces: nothing is skipped and nothing is read twice. */
  lemma {:induction false} TokensCoverTheText(s: string, i: nat)
    requires i <= |s| && Tokens(s, i).Some?
    ensures var ts := Tokens(s, i).value;
            && (ts == [] <==> i == |s|)
            && (ts != [] ==> ts[0].from == i && ts[|ts| - 1].to == |s|)
            && (forall k | 0 < k < |ts| :: ts[k].from == ts[k - 1].to)
            && (forall k | 0 <= k < |ts| :: ts[k].from < ts[k].to)
    decreases |s| - i
  {
    if i < |s| {
      TokensCoverTheText(s, Lex(s, i).token.to);
    }
  }

  // ----- what the scanner must find

  ghost predicate SemicolonIn(ts: seq<Token>, from: nat, to: nat)
    requires to <= |ts|
  {
    exists m :: from <= m < to && ts[m].kind == Semicolon
  }

  /** Token k is the first word of its statement; `start` says whether a statement starts at the first token. */
  ghost predicate LeadsStatement(ts: seq<Token>, k: nat, start: bool)
    requires k < |ts|
  {
    && ts[k].kind == Word
    && (start || SemicolonIn(ts, 0, k))
    && forall j | 0 <= j < k && ts[j].kind == Word :: SemicolonIn(ts, j + 1, k)
  }

  ghost predicate NoControl(s: string, ts: seq<Token>, start: bool)
    requires Inside(s, ts)
  {
    forall k | 0 <= k < |ts| && LeadsStatement(ts, k, start) :: !IsControl(s[ts[k].from..ts[k].to])
  }

  /** The scanner as a recursion from i: the first problem, if any. */
  function Scan(s: string, i: nat, start: bool): Option<Problem>
    requires i <= |s|
    decreases |s| - i
  {
    if i == |s| then None
    else
      match Lex(s, i)
      case Broken(p) => Some(p)
      case Found(t) =>
        if t.kind == Word && start && IsControl(s[t.from..t.to]) then Some(TransactionControl)
        else Scan(s, t.to, Starts(t, start))
  }

  /** Whether the next word leads a statement. */
  predicate Starts(t: Token, start: bool) {
    t.kind == Semicolon || (start && t.kind != Word)
  }

  /**
   * The scanner passes exactly the texts whose comments, strings and dollar bodies close and in which
   * no statement's first word is a transaction keyword.
   */
  lemma {:induction false} ScanAcceptsExactly(s: string, i: nat, start: bool)
    requires i <= |s|
    ensures Tokens(s, i).Some? ==> Inside(s, Tokens(s, i).value)
    ensures Scan(s, i, start).None? <==> Tokens(s, i).Some? && NoControl(s, Tokens(s, i).value, start)
    decreases |s| - i
  {
    TokensAreInside(s, i);
    if i < |s| && Lex(s, i).Found? {
      var t := Lex(s, i).token;
      ScanAcceptsExactly(s, t.to, Starts(t, start));
      if Tokens(s, i).Some? {
        NoControlUnfolds(s, t, Tokens(s, t.to).value, start);
      }
    }
  }

  lemma NoControlUnfolds(s: string, t: Token, rest: seq<Token>, start: bool)
    requires Inside(s, rest) && t.from < t.to <= |s|
    ensures NoControl(s, [t] + rest, start) <==>
              && (t.kind == Word && start ==> !IsControl(s[t.from..t.to]))
              && NoControl(s, rest, Starts(t, start))
  {
    var ts := [t] + rest;
    assert t.kind == Word && start ==> LeadsStatement(ts, 0, start);
    forall k: nat | k < |rest| ensures LeadsStatement(ts, k + 1, start) == LeadsStatement(rest, k, Starts(t, start)) {
      LeadsUnfolds(t, rest, start, k);
    }
    if NoControl(s, ts, start) {
      forall k: nat | k < |rest| && LeadsStatement(rest, k, Starts(t, start))
        ensures !IsControl(s[rest[k].from..rest[k].to])
      {
        assert ts[k + 1] == rest[k] && LeadsStatement(ts, k + 1, start);
      }
    }
    if NoControl(s, rest, Starts(t, start)) && (t.kind == Word && start ==> !IsControl(s[t.from..t.to])) {
      forall k: nat | k < |ts| && LeadsStatement(ts, k, start) ensures !IsControl(s[ts[k].from..ts[k].to]) {
        if k > 0 {
          assert ts[k] == rest[k - 1] && LeadsStatement(rest, k - 1, Starts(t, start));
        }
      }
    }
  }

  lemma SemicolonShift(t: Token, rest: seq<Token>, from: nat, to: nat)
    requires to <= |rest|
    ensures SemicolonIn([t] + rest, from + 1, to + 1) == SemicolonIn(rest, from, to)
  {
    var ts := [t] + rest;
    if SemicolonIn(rest, from, to) {
      var m :| from <= m < to && rest[m].kind == Semicolon;
      assert ts[m + 1].kind == Semicolon;
    }
    if SemicolonIn(ts, from + 1, to + 1) {
      var m :| from + 1 <= m < to + 1 && ts[m].kind == Semicolon;
      assert rest[m - 1].kind == Semicolon;
    }
  }

  lemma SemicolonFromTheFirst(t: Token, rest: seq<Token>, to: nat)
    requires to <= |rest|
    ensures SemicolonIn([t] + rest, 0, to + 1) == (t.kind == Semicolon || SemicolonIn(rest, 0, to))
  {
    SemicolonShift(t, rest, 0, to);
    var ts := [t] + rest;
    if t.kind == Semicolon {
      assert ts[0].kind == Semicolon;
    }
    if SemicolonIn(ts, 0, to + 1) && t.kind != Semicolon {
      var m :| 0 <= m < to + 1 && ts[m].kind == Semicolon;
      assert m != 0;
    }
  }

  lemma WordsUnfold(t: Token, rest: seq<Token>, k: nat)
    requires k < |rest|
    ensures var ts := [t] + rest;
            (forall j | 0 <= j < k + 1 && ts[j].kind == Word :: SemicolonIn(ts, j + 1, k + 1))
            <==> (t.kind == Word ==> SemicolonIn(rest, 0, k))
                 && (forall j | 0 <= j < k && rest[j].kind == Word :: SemicolonIn(rest, j + 1, k))
  {
    var ts := [t] + rest;
    SemicolonShift(t, rest, 0, k);
    forall j: nat | j < k
      ensures ts[j + 1] == rest[j] && SemicolonIn(ts, j + 2, k + 1) == SemicolonIn(rest, j + 1, k)
    {
      SemicolonShift(t, rest, j + 1, k);
    }
    if forall j | 0 <= j < k + 1 && ts[j].kind == Word :: SemicolonIn(ts, j + 1, k + 1) {
      assert t.kind == Word ==> ts[0].kind == Word;
      forall j: nat | j < k && rest[j].kind == Word ensures SemicolonIn(rest, j + 1, k) {
        assert ts[j + 1].kind == Word;
      }
    }
    if && (t.kind == Word ==> SemicolonIn(rest, 0, k))
       && (forall j | 0 <= j < k && rest[j].kind == Word :: SemicolonIn(rest, j + 1, k)) {
      forall j: nat | j < k + 1 && ts[j].kind == Word ensures SemicolonIn(ts, j + 1, k + 1) {
        if j > 0 {
          assert rest[j - 1].kind == Word;
        }
      }
    }
  }

  lemma LeadsUnfolds(t: Token, rest: seq<Token>, start: bool, k: nat)
    requires k < |rest|
    ensures LeadsStatement([t] + rest, k + 1, start) == LeadsStatement(rest, k, Starts(t, start))
  {
    SemicolonFromTheFirst(t, rest, k);
    WordsUnfold(t, rest, k);
    assert ([t] + rest)[k + 1] == rest[k];
  }

  // ----- strings

  function Doubled(content: string, quote: char): string {
    if content == "" then ""
    else (if content[0] == quote then [quote, quote] else [content[0]]) + Doubled(content[1..], quote)
  }

  /** Whatever a literal contains - keywords, semicolons, comment marks - it is a single token. */
  lemma {:induction false} LiteralsAreOneToken(before: string, content: string, quote: char, after: string)
    requires after == "" || after[0] != quote
    ensures var s := before + Doubled(content, quote) + [quote] + after;
            StringEnd(s, |before|, quote) == Some(|before| + |Doubled(content, quote)| + 1)
    decreases |content|
  {
    var s := before + Doubled(content, quote) + [quote] + after;
    if content == "" {
      assert s[|before|] == quote;
      assert |before| + 1 < |s| ==> s[|before| + 1] == after[0];
    } else {
      var head := if content[0] == quote then [quote, quote] else [content[0]];
      assert s == (before + head) + Doubled(content[1..], quote) + [quote] + after;
      LiteralsAreOneToken(before + head, content[1..], quote, after);
      assert s[|before|] == head[0];
      assert |head| == 2 ==> s[|before| + 1] == head[1];
    }
  }

  // ----- a whole migration text

  function WithoutSuffix(s: string, p: string): string {
    if EndsWith(s, p) then s[..|s| - |p|] else s
  }

  /** The trimmed text, without the BEGIN; and COMMIT; that may frame it. */
  function Body(text: string): string {
    var t := Trim(text);
    if StartsWith(t, 0, "BEGIN;") && EndsWith(t, "COMMIT;") then Trim(WithoutSuffix(t[|"BEGIN;"|..], "COMMIT;")) else t
  }

  function AtomicSql(text: string): Outcome {
    var body := Body(text);
    match Scan(body, 0, true)
    case Some(p) => Refused(p)
    case None => if body == "" then Refused(EmptyMigration) else Accepted(body)
  }

  /** A migration passes if and only if its body is non-empty, closes everything and never controls the transaction. */
  lemma AcceptedExactly(text: string)
    ensures var body := Body(text);
            AtomicSql(text).Accepted? <==>
              && body != "" && Tokens(body, 0).Some?
              && Inside(body, Tokens(body, 0).value) && NoControl(body, Tokens(body, 0).value, true)
    ensures AtomicSql(text).Accepted? ==> AtomicSql(text).sql == Body(text)
  {
    ScanAcceptsExactly(Body(text), 0, true);
  }

  // ----- trimming

  ghost predicate IsTrimmed(s: string) {
    s != "" ==> !IsSpace(s[0]) && !IsSpace(s[|s| - 1])
  }

  lemma {:induction false} TrimLeftStops(s: string)
    ensures TrimLeft(s) != "" ==> !IsSpace(TrimLeft(s)[0])
  {
    if s != "" && IsSpace(s[0]) {
      TrimLeftStops(s[1..]);
    }
  }

  lemma {:induction false} TrimRightStops(s: string)
    ensures var t := TrimRight(s);
            && (t != "" ==> !IsSpace(t[|t| - 1]) && s != "" && t[0] == s[0])
  {
    if s != "" && IsSpace(s[|s| - 1]) {
      TrimRightStops(s[..|s| - 1]);
    }
  }

  lemma TrimTrims(s: string)
    ensures IsTrimmed(Trim(s))
  {
    TrimLeftStops(s);
    TrimRightStops(TrimLeft(s));
  }

  lemma TrimmedStays(s: string)
    requires IsTrimmed(s)
    ensures Trim(s) == s
  {
  }

  // ----- accepted texts are fixed points

  lemma FramedTextIsRefused(s: string)
    requires StartsWith(s, 0, "BEGIN;")
    ensures Scan(s, 0, true) == Some(TransactionControl)
  {
    var frame := s[0..6];
    assert frame == "BEGIN;";
    assert s[0] == frame[0] == 'B' && s[1] == frame[1] == 'E' && s[2] == frame[2] == 'G';
    assert s[3] == frame[3] == 'I' && s[4] == frame[4] == 'N' && s[5] == frame[5] == ';';
    var e := WordEnd(s, 0);
    assert e <= 5;
    assert e == 5 by {
      assert e < |s| && !IsLetter(s[e]);
    }
    assert s[0..5] == "BEGIN";
    assert Upper("BEGIN") == "BEGIN";
    assert !StartsWith(s, 0, "--") && !StartsWith(s, 0, "/*") by {
      assert s[0..2][0] == 'B';
    }
  }

  /** The scanner is the identity on its own output. */
  lemma AcceptedTextIsAFixedPoint(text: string)
    requires AtomicSql(text).Accepted?
    ensures AtomicSql(AtomicSql(text).sql) == AtomicSql(text)
  {
    var sql := AtomicSql(text).sql;
    TrimTrims(text);
    TrimTrims(WithoutSuffix(Trim(text)[if |Trim(text)| < 6 then 0 else 6..], "COMMIT;"));
    assert IsTrimmed(sql);
    TrimmedStays(sql);
    if StartsWith(sql, 0, "BEGIN;") {
      FramedTextIsRefused(sql);
    }
  }

  // ----- the loops

  lemma {:induction false} LineEndIsTheNextNewline(s: string, i: nat)
    requires i <= |s|
    ensures LineEnd(s, i) == if Find(s, i, "\n").Some? then Find(s, i, "\n").value + 1 else |s|
    decreases |s| - i
  {
    if i < |s| {
      assert StartsWith(s, i, "\n") <==> s[i] == '\n';
      LineEndIsTheNextNewline(s, i + 1);
    } else {
      assert !StartsWith(s, i, "\n");
    }
  }

  /** The nested-comment loop. */
  method SkipComment(s: string, from: nat) returns (i: nat, depth: nat)
    requires from + 2 <= |s|
    ensures depth == 0 ==> CommentEnd(s, from + 2, 1) == Some(i)
    ensures depth != 0 ==> CommentEnd(s, from + 2, 1).None?
    ensures i <= |s|
  {
    depth := 1;
    i := from + 2;
    ghost var end := CommentEnd(s, i, depth);
    while i < |s| && depth > 0
      invariant from + 2 <= i <= |s|
      invariant end == CommentEnd(s, i, depth)
    {
      if StartsWith(s, i, "/*") {
        depth := depth + 1;
        i := i + 2;
      } else if StartsWith(s, i, "*/") {
        depth := depth - 1;
        i := i + 2;
      } else {
        i := i + 1;
      }
    }
  }

  /** The string loop, which treats a doubled quote as content. */
  method SkipString(s: string, from: nat) returns (i: nat, closed: bool)
    requires from < |s|
    ensures closed ==> StringEnd(s, from + 1, s[from]) == Some(i)
    ensures !closed ==> StringEnd(s, from + 1, s[from]).None?
    ensures from < i <= |s|
  {
    var c := s[from];
    i := from + 1;
    closed := false;
    while i < |s|
      invariant from < i <= |s| && !closed
      invariant StringEnd(s, from + 1, c) == StringEnd(s, i, c)
    {
      if s[i] == c {
        i := i + 1;
        if i < |s| && s[i] == c {
          i := i + 1;
          continue;
        }
        closed := true;
        break;
      }
      i := i + 1;
    }
  }

  /** The word loop, which collects the letters it passes. */
  method ReadWord(s: string, from: nat) returns (i: nat, token: string)
    requires from < |s|
    ensures i == WordEnd(s, from) && token == s[from..i]
  {
    token := "";
    i := from;
    while i < |s| && (IsLetter(s[i]) || s[i] == '_')
      invariant from <= i <= |s| && token == s[from..i]
      invariant WordEnd(s, from) == WordEnd(s, i)
    {
      token := token + [s[i]];
      i := i + 1;
    }
  }

  /** One round of the scanner: finds the token at i. */
  method ReadToken(s: string, i: nat) returns (r: Lexed)
    requires i < |s|
    ensures r == Lex(s, i)
  {
    if StartsWith(s, i, "--") {
      var end := Find(s, i, "\n");
      LineEndIsTheNextNewline(s, i);
      return Found(Token(LineComment, i, if end.None? then |s| else end.value + 1));
    }
    if StartsWith(s, i, "/*") {
      var next, depth := SkipComment(s, i);
      return if depth != 0 then Broken(UnterminatedComment) else Found(Token(BlockComment, i, next));
    }
    var c := s[i];
    if c == '\'' || c == '"' {
      var next, closed := SkipString(s, i);
      return if closed then Found(Token(Quoted, i, next)) else Broken(UnterminatedString);
    }
    if c == '$' {
      var tagEnd := TagEnd(s, i);
      if tagEnd.Some? {
        var tag := s[i..tagEnd.value];
        var stop := Find(s, tagEnd.value, tag);
        return if stop.None? then Broken(UnterminatedBody) else Found(Token(DollarBody, i, stop.value + |tag|));
      }
    }
    if c == ';' {
      return Found(Token(Semicolon, i, i + 1));
    }
    if IsLetter(c) {
      var next, token := ReadWord(s, i);
      return Found(Token(Word, i, next));
    }
    r := Found(Token(Other, i, i + 1));
  }

  method ScanMigration(text: string) returns (r: Outcome)
    ensures r == AtomicSql(text)
  {
    var s := Body(text);
    var start := true;
    var i := 0;
    while i < |s|
      invariant 0 <= i <= |s|
      invariant Scan(s, 0, true) == Scan(s, i, start)
    {
      var lexed := ReadToken(s, i);
      if lexed.Broken? {
        return Refused(lexed.problem);
      }
      var t := lexed.token;
      if t.kind == Semicolon {
        start := true;
      } else if t.kind == Word && start {
        if IsControl(s[t.from..t.to]) {
          return Refused(TransactionControl);
        }
        start := false;
      }
      i := t.to;
    }
    r := if s == "" then Refused(EmptyMigration) else Accepted(s);
  }
}
