/** The lexer: an ordered table of patterns tried at the cursor, first match
    wins, whitespace dropped, abort on the first character no pattern takes. */
module Lexer {
  import opened Chars
  import opened Tokens
  import opened Results

  /** A set of characters a pattern position accepts. */
  datatype Class = Digit | IdStart | Word | Blank | Exactly(c: char) | NoChar

  predicate InClass(cls: Class, c: char) {
    match cls
    case Digit => IsDigit(c)
    case IdStart => IsIdStart(c)
    case Word => IsWordChar(c)
    case Blank => IsSpace(c)
    case Exactly(d) => c == d
    case NoChar => false
  }

  /** A pattern of the shape `F R*`: one character of class `first`, then as
      many characters of class `rest` as there are. Every regular expression
      of the lexer's table has this shape (`\d+` is `\d \d*`, a single
      character `c` is `c` followed by nothing). */
  datatype Pattern = Pattern(first: Class, rest: Class)

  /** The lexer's table: kinds and patterns in priority order. */
  const Table: seq<(Kind, Pattern)> := [
    (Num, Pattern(Digit, Digit)),
    (Id, Pattern(IdStart, Word)),
    (Plus, Pattern(Exactly('+'), NoChar)),
    (Minus, Pattern(Exactly('-'), NoChar)),
    (Times, Pattern(Exactly('*'), NoChar)),
    (Div, Pattern(Exactly('/'), NoChar)),
    (Assign, Pattern(Exactly('='), NoChar)),
    (LParen, Pattern(Exactly('('), NoChar)),
    (RParen, Pattern(Exactly(')'), NoChar)),
    (Space, Pattern(Blank, Blank))
  ]

  /** The entries of the table, one by one. */
  lemma TableEntries()
    ensures |Table| == 10
    ensures Table[0] == (Num, Pattern(Digit, Digit))
    ensures Table[1] == (Id, Pattern(IdStart, Word))
    ensures Table[2] == (Plus, Pattern(Exactly('+'), NoChar))
    ensures Table[3] == (Minus, Pattern(Exactly('-'), NoChar))
    ensures Table[4] == (Times, Pattern(Exactly('*'), NoChar))
    ensures Table[5] == (Div, Pattern(Exactly('/'), NoChar))
    ensures Table[6] == (Assign, Pattern(Exactly('='), NoChar))
    ensures Table[7] == (LParen, Pattern(Exactly('('), NoChar))
    ensures Table[8] == (RParen, Pattern(Exactly(')'), NoChar))
    ensures Table[9] == (Space, Pattern(Blank, Blank))
  {
  }

  /** `text` is in the language of pattern `p`. */
  predicate Matches(p: Pattern, text: string) {
    && |text| > 0
    && InClass(p.first, text[0])
    && forall i :: 1 <= i < |text| ==> InClass(p.rest, text[i])
  }

  /** Length of the run of characters of class `cls` from `pos`. */
  function Span(cls: Class, s: string, pos: nat): (n: nat)
    requires pos <= |s|
    ensures pos + n <= |s|
    decreases |s| - pos
  {
    if pos < |s| && InClass(cls, s[pos]) then 1 + Span(cls, s, pos + 1) else 0
  }

  /** The span is the longest run: every character in it is of the class,
      and the one after it, if any, is not. */
  lemma {:induction false} SpanIsLongestRun(cls: Class, s: string, pos: nat)
    requires pos <= |s|
    ensures forall i :: pos <= i < pos + Span(cls, s, pos) ==> InClass(cls, s[i])
    ensures pos + Span(cls, s, pos) == |s| || !InClass(cls, s[pos + Span(cls, s, pos)])
    decreases |s| - pos
  {
    if pos < |s| && InClass(cls, s[pos]) {
      SpanIsLongestRun(cls, s, pos + 1);
    }
  }

  /** Conversely, a run of the class that ends at the input's end or at a
      character outside the class is the span. */
  lemma {:induction false} RunIsSpan(cls: Class, s: string, pos: nat, n: nat)
    requires pos + n <= |s|
    requires forall i :: pos <= i < pos + n ==> InClass(cls, s[i])
    requires pos + n == |s| || !InClass(cls, s[pos + n])
    ensures Span(cls, s, pos) == n
    decreases n
  {
    if n > 0 {
      assert InClass(cls, s[pos]);
      RunIsSpan(cls, s, pos + 1, n - 1);
    }
  }

  /** Length of what pattern `p` matches at `pos`, 0 for no match (no
      pattern matches the empty text). */
  function MatchLength(p: Pattern, code: string, pos: nat): (n: nat)
    requires pos <= |code|
    ensures pos + n <= |code|
  {
    if pos < |code| && InClass(p.first, code[pos]) then
      1 + Span(p.rest, code, pos + 1)
    else 0
  }

  /** What a pattern matches is in its language. */
  lemma MatchLengthMatches(p: Pattern, code: string, pos: nat)
    requires pos <= |code|
    ensures MatchLength(p, code, pos) > 0 ==> Matches(p, code[pos..pos + MatchLength(p, code, pos)])
  {
    if pos < |code| && InClass(p.first, code[pos]) {
      SpanIsLongestRun(p.rest, code, pos + 1);
    }
  }

  /** Patterns are greedy: no longer prefix of the remaining input is in the
      pattern's language, and when nothing matched, no non-empty prefix is. */
  lemma MatchIsLongest(p: Pattern, code: string, pos: nat, m: nat)
    requires pos < m <= |code|
    requires pos + MatchLength(p, code, pos) < m
    ensures !Matches(p, code[pos..m])
  {
    var n := MatchLength(p, code, pos);
    if pos < |code| && InClass(p.first, code[pos]) {
      SpanIsLongestRun(p.rest, code, pos + 1);
    }
    if n == 0 {
      assert code[pos..m][0] == code[pos];
    } else {
      assert code[pos..m][n] == code[pos + n];
    }
  }

  /** Index of the first entry of `entries`, from index `i` on, whose
      pattern matches at `pos`; `|entries|` when none does. */
  function FirstMatch(entries: seq<(Kind, Pattern)>, code: string, pos: nat, i: nat): (j: nat)
    requires pos <= |code| && i <= |entries|
    ensures i <= j <= |entries|
    ensures j < |entries| ==> MatchLength(entries[j].1, code, pos) > 0
    decreases |entries| - i
  {
    if i == |entries| then i
    else if MatchLength(entries[i].1, code, pos) > 0 then i
    else FirstMatch(entries, code, pos, i + 1)
  }

  /** First match wins: every entry tried before the chosen one (every
      entry, when none is chosen) matches nothing at `pos`. */
  lemma {:induction false} FirstMatchIsFirst(entries: seq<(Kind, Pattern)>, code: string, pos: nat, i: nat, j: nat)
    requires pos <= |code| && i <= |entries|
    requires i <= j < FirstMatch(entries, code, pos, i)
    ensures MatchLength(entries[j].1, code, pos) == 0
    decreases |entries| - i
  {
    if i < j {
      FirstMatchIsFirst(entries, code, pos, i + 1, j);
    }
  }

  /** The first entry from `i` on that matches is found no later than any
      entry that matches. */
  lemma {:induction false} FirstMatchFindsMatch(entries: seq<(Kind, Pattern)>, code: string, pos: nat, i: nat, j: nat)
    requires pos <= |code| && i <= j < |entries|
    requires MatchLength(entries[j].1, code, pos) > 0
    ensures FirstMatch(entries, code, pos, i) <= j
    decreases j - i
  {
    if i < j {
      FirstMatchFindsMatch(entries, code, pos, i + 1, j);
    }
  }

  /** The entry chosen is the first that matches: when every entry from `i`
      up to `j` matches nothing and entry `j` matches, `j` is chosen. */
  lemma {:induction false} FirstMatchAt(entries: seq<(Kind, Pattern)>, code: string, pos: nat, i: nat, j: nat)
    requires pos <= |code| && i <= j < |entries|
    requires forall l :: i <= l < j ==> MatchLength(entries[l].1, code, pos) == 0
    requires MatchLength(entries[j].1, code, pos) > 0
    ensures FirstMatch(entries, code, pos, i) == j
    decreases j - i
  {
    if i < j {
      FirstMatchAt(entries, code, pos, i + 1, j);
    }
  }

  /** The lexemes of each kind, stated per kind: NUM is a digit run, ID a
      letter or `_` followed by word characters, SPACE a whitespace run, and
      each operator or parenthesis its one character; the end marker has
      none. */
  predicate Lexeme(k: Kind, text: string) {
    match k
    case Num => IsDigits(text)
    case Id =>
      |text| > 0 && IsIdStart(text[0]) && forall i :: 1 <= i < |text| ==> IsWordChar(text[i])
    case Plus => text == "+"
    case Minus => text == "-"
    case Times => text == "*"
    case Div => text == "/"
    case Assign => text == "="
    case LParen => text == "("
    case RParen => text == ")"
    case Space => |text| > 0 && forall i :: 0 <= i < |text| ==> IsSpace(text[i])
    case Eof => false
  }

  /** A token the lexer may emit: a non-space kind with one of its lexemes. */
  predicate WellFormed(t: Token) {
    t.kind != Space && Lexeme(t.kind, t.text)
  }

  /** Each table entry's pattern denotes exactly the lexemes of its kind. */
  lemma TableDenotesLexemes(j: nat, text: string)
    requires j < |Table|
    ensures Matches(Table[j].1, text) <==> Lexeme(Table[j].0, text)
  {
    TableEntries();
    if 2 <= j < 9 && |text| > 1 {
      assert !InClass(NoChar, text[1]);
    }
  }

  /** Every text an entry's pattern matches is a lexeme of the entry's kind. */
  ghost predicate Denotes(entries: seq<(Kind, Pattern)>) {
    forall j, text {:trigger Matches(entries[j].1, text)} :: 0 <= j < |entries| && Matches(entries[j].1, text) ==> Lexeme(entries[j].0, text)
  }

  lemma TableDenotes()
    ensures Denotes(Table)
  {
    forall j, text | 0 <= j < |Table| && Matches(Table[j].1, text)
      ensures Lexeme(Table[j].0, text)
    {
      TableDenotesLexemes(j, text);
    }
  }

  /** What a table makes of the input at one position: the kind and length
      of the first entry that matches, or no match. */
  datatype Lexed = NoMatch | Matched(kind: Kind, len: nat)

  /** One iteration of the scan loop: try the entries in order, keep the
      first that matches. */
  function Scan(entries: seq<(Kind, Pattern)>, code: string, pos: nat): (m: Lexed)
    requires pos <= |code|
    ensures m.Matched? ==> 0 < m.len && pos + m.len <= |code|
  {
    var j := FirstMatch(entries, code, pos, 0);
    if j == |entries| then NoMatch else Matched(entries[j].0, MatchLength(entries[j].1, code, pos))
  }

  /** A match cuts a lexeme of the matched kind from the input. */
  lemma ScanCutsLexeme(entries: seq<(Kind, Pattern)>, code: string, pos: nat)
    requires pos <= |code| && Denotes(entries)
    ensures Scan(entries, code, pos).Matched? ==>
      Lexeme(Scan(entries, code, pos).kind, code[pos..pos + Scan(entries, code, pos).len])
  {
    var j := FirstMatch(entries, code, pos, 0);
    if j < |entries| {
      MatchLengthMatches(entries[j].1, code, pos);
    }
  }

  /** Puts the token cut at the cursor in front of the rest of the scan; a
      SPACE match is dropped, an error is passed on. */
  function Emit(k: Kind, text: string, rest: Result<seq<Token>>): Result<seq<Token>> {
    match rest
    case Err(e) => Err(e)
    case Ok(ts) => if k == Space then Ok(ts) else Ok([Token(k, text)] + ts)
  }

  /** The scan loop with table `entries`: the tokens of `code[pos..]`, or
      the error the scan stops with. */
  function LexWith(entries: seq<(Kind, Pattern)>, code: string, pos: nat): Result<seq<Token>>
    requires pos <= |code|
    decreases |code| - pos
  {
    if pos == |code| then Ok([])
    else
      match Scan(entries, code, pos)
      case NoMatch => Err(LexError(code[pos..]))
      case Matched(k, n) => Emit(k, code[pos..pos + n], LexWith(entries, code, pos + n))
  }

  /** The lexer: the scan loop with the lexer's table, from the start of the
      source. */
  function Lex(code: string): Result<seq<Token>> {
    LexWith(Table, code, 0)
  }
}
