/** What the lexer promises: its tokens partition the input minus whitespace,
    it fails exactly at the first character no pattern can start, and the
    table order decides which kind a token gets. */
module LexerProperties {
  import opened Chars
  import opened Tokens
  import opened Results
  import opened Lexer

  /** The texts of a token sequence, one after another. */
  function Concat(ts: seq<Token>): string {
    if ts == [] then [] else ts[0].text + Concat(ts[1..])
  }

  /** `s` with every whitespace character deleted. */
  function WithoutSpaces(s: string): string {
    if s == [] then [] else (if IsSpace(s[0]) then [] else [s[0]]) + WithoutSpaces(s[1..])
  }

  /** The tokens spell `s` with its whitespace deleted, and each of them is a
      lexeme of its kind, which is not SPACE. */
  predicate Partitions(ts: seq<Token>, s: string) {
    && Concat(ts) == WithoutSpaces(s)
    && forall i :: 0 <= i < |ts| ==> WellFormed(ts[i])
  }

  lemma {:induction false} WithoutSpacesAppend(a: string, b: string)
    ensures WithoutSpaces(a + b) == WithoutSpaces(a) + WithoutSpaces(b)
  {
    if a == [] {
      assert a + b == b;
    } else {
      assert (a + b)[0] == a[0];
      assert (a + b)[1..] == a[1..] + b;
      WithoutSpacesAppend(a[1..], b);
    }
  }

  lemma {:induction false} WithoutSpacesOfUniform(s: string)
    ensures (forall i :: 0 <= i < |s| ==> IsSpace(s[i])) ==> WithoutSpaces(s) == []
    ensures (forall i :: 0 <= i < |s| ==> !IsSpace(s[i])) ==> WithoutSpaces(s) == s
  {
    if s != [] {
      WithoutSpacesOfUniform(s[1..]);
      assert forall i :: 1 <= i < |s| ==> s[1..][i - 1] == s[i];
      assert s == [s[0]] + s[1..];
    }
  }

  /** Whitespace lexemes vanish when whitespace is deleted; all other
      lexemes survive intact. */
  lemma WithoutSpacesOfLexeme(k: Kind, text: string)
    requires Lexeme(k, text)
    ensures k == Space ==> WithoutSpaces(text) == []
    ensures k != Space ==> WithoutSpaces(text) == text
  {
    WithoutSpacesOfUniform(text);
  }

  lemma ConcatCons(t: Token, ts: seq<Token>)
    ensures Concat([t] + ts) == t.text + Concat(ts)
  {
    assert ([t] + ts)[1..] == ts;
  }

  /** One step of the scan after a match: emit the token (unless SPACE) in
      front of the scan of the rest. */
  lemma {:induction false} LexWithMatched(entries: seq<(Kind, Pattern)>, code: string, pos: nat, k: Kind, n: nat)
    requires pos < |code| && Scan(entries, code, pos) == Matched(k, n)
    ensures LexWith(entries, code, pos) == Emit(k, code[pos..pos + n], LexWith(entries, code, pos + n))
  {
  }

  /** The scan stops with an error where no entry matches. */
  lemma {:induction false} LexWithUnmatched(entries: seq<(Kind, Pattern)>, code: string, pos: nat)
    requires pos < |code| && Scan(entries, code, pos) == NoMatch
    ensures LexWith(entries, code, pos) == Err(LexError(code[pos..]))
  {
  }

  /** The partition property survives one step of the scan. */
  lemma {:induction false} PartitionsStep(entries: seq<(Kind, Pattern)>, code: string, pos: nat, k: Kind, n: nat)
    requires Denotes(entries)
    requires pos < |code| && Scan(entries, code, pos) == Matched(k, n)
    requires LexWith(entries, code, pos + n).Ok? ==>
      Partitions(LexWith(entries, code, pos + n).value, code[pos + n..])
    ensures LexWith(entries, code, pos).Ok? ==> Partitions(LexWith(entries, code, pos).value, code[pos..])
  {
    var text := code[pos..pos + n];
    ScanCutsLexeme(entries, code, pos);
    LexWithMatched(entries, code, pos, k, n);
    if LexWith(entries, code, pos + n).Ok? {
      var rest := LexWith(entries, code, pos + n).value;
      assert code[pos..] == text + code[pos + n..];
      WithoutSpacesAppend(text, code[pos + n..]);
      WithoutSpacesOfLexeme(k, text);
      if k != Space {
        PartitionsCons(Token(k, text), rest, code[pos..], code[pos + n..]);
      }
    }
  }

  /** A well-formed token in front of a partition of the rest of the input
      partitions the whole. */
  lemma PartitionsCons(t: Token, rest: seq<Token>, s: string, after: string)
    requires WellFormed(t) && Partitions(rest, after)
    requires WithoutSpaces(s) == t.text + WithoutSpaces(after)
    ensures Partitions([t] + rest, s)
  {
    ConcatCons(t, rest);
    assert forall i :: 1 <= i < |rest| + 1 ==> ([t] + rest)[i] == rest[i - 1];
  }

  /** The scan loop partitions the input for every table whose patterns
      denote lexemes of their kinds. */
  lemma {:induction false} LexWithPartitions(entries: seq<(Kind, Pattern)>, code: string, pos: nat)
    requires pos <= |code| && Denotes(entries)
    ensures LexWith(entries, code, pos).Ok? ==> Partitions(LexWith(entries, code, pos).value, code[pos..])
    decreases |code| - pos
  {
    if pos == |code| {
      assert code[pos..] == [];
    } else {
      match Scan(entries, code, pos)
      case NoMatch =>
        LexWithUnmatched(entries, code, pos);
      case Matched(k, n) =>
        LexWithPartitions(entries, code, pos + n);
        PartitionsStep(entries, code, pos, k, n);
    }
  }

  /** Lexer partition: on success the emitted tokens, concatenated, are the
      input with its whitespace deleted, each is a lexeme of its kind, and
      none of them is SPACE. */
  lemma LexPartitions(code: string)
    ensures Lex(code).Ok? ==> Partitions(Lex(code).value, code)
  {
    TableDenotes();
    LexWithPartitions(Table, code, 0);
    assert code[0..] == code;
  }

  /** The first position at or after `pos` holding a character no pattern
      can start, or `|code|` when there is none. */
  function FirstUnlexable(code: string, pos: nat): (k: nat)
    requires pos <= |code|
    ensures pos <= k <= |code|
    ensures forall i :: pos <= i < k ==> IsLexable(code[i])
    ensures k < |code| ==> !IsLexable(code[k])
    decreases |code| - pos
  {
    if pos == |code| || !IsLexable(code[pos]) then pos else FirstUnlexable(code, pos + 1)
  }

  lemma {:induction false} FirstUnlexableSkip(code: string, pos: nat, q: nat)
    requires pos <= q <= |code|
    requires forall i :: pos <= i < q ==> IsLexable(code[i])
    ensures FirstUnlexable(code, pos) == FirstUnlexable(code, q)
    decreases q - pos
  {
    if pos < q {
      FirstUnlexableSkip(code, pos + 1, q);
    }
  }

  /** Some entry of the table matches at a position exactly when the
      character there is lexable. */
  ghost predicate Covers(entries: seq<(Kind, Pattern)>) {
    forall code: string, pos: nat {:trigger Scan(entries, code, pos)} :: pos < |code| ==>
      (Scan(entries, code, pos).Matched? <==> IsLexable(code[pos]))
  }

  /** No entry matches at a character outside every class. */
  lemma NoMatchAtUnlexable(code: string, pos: nat)
    requires pos < |code| && !IsLexable(code[pos])
    ensures Scan(Table, code, pos) == NoMatch
  {
    TableEntries();
    forall j | 0 <= j < |Table|
      ensures MatchLength(Table[j].1, code, pos) == 0
    {
    }
  }

  /** Some entry matches at every character of a class. */
  lemma MatchAtLexable(code: string, pos: nat)
    requires pos < |code| && IsLexable(code[pos])
    ensures Scan(Table, code, pos).Matched?
  {
    TableEntries();
    var c := code[pos];
    var i :=
      if IsDigit(c) then 0
      else if IsIdStart(c) then 1
      else if c == '+' then 2
      else if c == '-' then 3
      else if c == '*' then 4
      else if c == '/' then 5
      else if c == '=' then 6
      else if c == '(' then 7
      else if c == ')' then 8
      else 9;
    assert MatchLength(Table[i].1, code, pos) > 0;
    FirstMatchFindsMatch(Table, code, pos, 0, i);
  }

  lemma TableCovers()
    ensures Covers(Table)
  {
    forall code: string, pos: nat | pos < |code|
      ensures Scan(Table, code, pos).Matched? <==> IsLexable(code[pos])
    {
      if IsLexable(code[pos]) {
        MatchAtLexable(code, pos);
      } else {
        NoMatchAtUnlexable(code, pos);
      }
    }
  }

  /** Every character of a lexeme is one some pattern can start. */
  lemma LexemeIsLexable(k: Kind, text: string)
    requires Lexeme(k, text)
    ensures forall i :: 0 <= i < |text| ==> IsLexable(text[i])
  {
  }

  /** Scanning past a match keeps the first unlexable position. */
  lemma {:induction false} StopsStep(entries: seq<(Kind, Pattern)>, code: string, pos: nat, k: Kind, n: nat)
    requires Denotes(entries)
    requires pos < |code| && Scan(entries, code, pos) == Matched(k, n)
    ensures FirstUnlexable(code, pos) == FirstUnlexable(code, pos + n)
    ensures LexWith(entries, code, pos).Ok? <==> LexWith(entries, code, pos + n).Ok?
    ensures LexWith(entries, code, pos).Err? ==> LexWith(entries, code, pos) == LexWith(entries, code, pos + n)
  {
    var text := code[pos..pos + n];
    ScanCutsLexeme(entries, code, pos);
    LexemeIsLexable(k, text);
    assert forall i :: pos <= i < pos + n ==> text[i - pos] == code[i];
    FirstUnlexableSkip(code, pos, pos + n);
    LexWithMatched(entries, code, pos, k, n);
  }

  /** Where no entry matches, the scan loop fails at once, and that is the
      first unlexable position. */
  lemma UnmatchedStops(entries: seq<(Kind, Pattern)>, code: string, pos: nat)
    requires Covers(entries)
    requires pos < |code| && Scan(entries, code, pos) == NoMatch
    ensures FirstUnlexable(code, pos) == pos
    ensures LexWith(entries, code, pos) == Err(LexError(code[pos..]))
  {
    LexWithUnmatched(entries, code, pos);
  }

  /** The scan loop, for a table that denotes lexemes and covers exactly the
      lexable characters, succeeds exactly when no unlexable character
      follows `pos`, and otherwise fails at the first one, carrying the input
      from there on. */
  lemma {:induction false} LexWithStopsAtFirstUnlexable(entries: seq<(Kind, Pattern)>, code: string, pos: nat)
    requires pos <= |code| && Denotes(entries) && Covers(entries)
    ensures FirstUnlexable(code, pos) == |code| ==> LexWith(entries, code, pos).Ok?
    ensures FirstUnlexable(code, pos) < |code| ==>
      LexWith(entries, code, pos) == Err(LexError(code[FirstUnlexable(code, pos)..]))
    decreases |code| - pos
  {
    if pos < |code| {
      match Scan(entries, code, pos)
      case NoMatch =>
        UnmatchedStops(entries, code, pos);
      case Matched(k, n) =>
        LexWithStopsAtFirstUnlexable(entries, code, pos + n);
        StopsStep(entries, code, pos, k, n);
    }
  }

  /** Lexer totality: `Lex` succeeds exactly when every character is a digit,
      a letter, `_`, one of `+ - * / = ( )` or whitespace; when it fails, the
      error carries the suffix starting at the first other character. */
  lemma LexSucceedsIffLexable(code: string)
    ensures Lex(code).Ok? <==> forall i :: 0 <= i < |code| ==> IsLexable(code[i])
    ensures Lex(code).Err? ==>
      var k := FirstUnlexable(code, 0);
      && k < |code|
      && !IsLexable(code[k])
      && (forall i :: 0 <= i < k ==> IsLexable(code[i]))
      && Lex(code).error == LexError(code[k..])
  {
    TableDenotes();
    TableCovers();
    LexWithStopsAtFirstUnlexable(Table, code, 0);
  }

  /** First-match priority at a digit: NUM is chosen before ID, and takes
      the whole digit run, which ends at the input's end or at a non-digit. */
  lemma ScanAtDigit(code: string, pos: nat) returns (n: nat)
    requires pos < |code| && IsDigit(code[pos])
    ensures Scan(Table, code, pos) == Matched(Num, n)
    ensures n == 1 + Span(Digit, code, pos + 1)
    ensures pos < pos + n <= |code|
    ensures forall i :: pos <= i < pos + n ==> IsDigit(code[i])
    ensures pos + n == |code| || !IsDigit(code[pos + n])
  {
    n := Span(Digit, code, pos + 1) + 1;
    SpanIsLongestRun(Digit, code, pos + 1);
    TableEntries();
    assert FirstMatch(Table, code, pos, 0) == 0;
  }

  /** At a letter or `_` the ID entry is chosen, and takes the whole run of
      word characters, digits included. */
  lemma ScanAtIdStart(code: string, pos: nat) returns (n: nat)
    requires pos < |code| && IsIdStart(code[pos])
    ensures Scan(Table, code, pos) == Matched(Id, n)
    ensures n == 1 + Span(Word, code, pos + 1)
    ensures pos < pos + n <= |code|
    ensures forall i :: pos < i < pos + n ==> IsWordChar(code[i])
    ensures pos + n == |code| || !IsWordChar(code[pos + n])
  {
    n := Span(Word, code, pos + 1) + 1;
    SpanIsLongestRun(Word, code, pos + 1);
    TableEntries();
    assert MatchLength(Table[0].1, code, pos) == 0;
    assert FirstMatch(Table, code, pos, 0) == 1;
  }

  /** No entry before the last one matches at whitespace. */
  lemma BlankSkipsOtherEntries(code: string, pos: nat)
    requires pos < |code| && IsSpace(code[pos])
    ensures FirstMatch(Table, code, pos, 0) == 9
  {
    var c := code[pos];
    assert !IsDigit(c) && !IsIdStart(c) && !IsSymbol(c);
    TableEntries();
    forall l | 0 <= l < 9
      ensures !InClass(Table[l].1.first, c)
    {
    }
    FirstMatchAt(Table, code, pos, 0, 9);
  }

  /** At whitespace only the last entry, SPACE, matches, and it takes the
      whole whitespace run. */
  lemma ScanAtSpace(code: string, pos: nat) returns (n: nat)
    requires pos < |code| && IsSpace(code[pos])
    ensures Scan(Table, code, pos) == Matched(Space, n)
    ensures n == 1 + Span(Blank, code, pos + 1)
    ensures pos < pos + n <= |code|
    ensures forall i :: pos <= i < pos + n ==> IsSpace(code[i])
    ensures pos + n == |code| || !IsSpace(code[pos + n])
  {
    n := Span(Blank, code, pos + 1) + 1;
    SpanIsLongestRun(Blank, code, pos + 1);
    BlankSkipsOtherEntries(code, pos);
  }

  /** A whitespace run is consumed whole and emits nothing. */
  lemma SpaceRunIsDropped(code: string, pos: nat) returns (n: nat)
    requires pos < |code| && IsSpace(code[pos])
    ensures pos < pos + n <= |code|
    ensures forall i :: pos <= i < pos + n ==> IsSpace(code[i])
    ensures pos + n == |code| || !IsSpace(code[pos + n])
    ensures LexWith(Table, code, pos) == LexWith(Table, code, pos + n)
  {
    n := ScanAtSpace(code, pos);
    LexWithMatched(Table, code, pos, Space, n);
  }

  lemma EmitTwo(a: Token, b: Token)
    requires a.kind != Space && b.kind != Space
    ensures Emit(a.kind, a.text, Emit(b.kind, b.text, Ok([]))) == Ok([a, b])
  {
    assert Token(a.kind, a.text) == a && Token(b.kind, b.text) == b;
    assert [b] + [] == [b];
    assert [a] + [b] == [a, b];
  }

  /** `12ab` is a number followed by an identifier, not one identifier. */
  lemma NumberThenIdentifier()
    ensures Lex("12ab") == Ok([Token(Num, "12"), Token(Id, "ab")])
  {
    var code := "12ab";
    var n := ScanAtDigit(code, 0);
    assert n == 2 by {
      assert IsDigit(code[1]) && !IsDigit(code[2]);
    }
    var m := ScanAtIdStart(code, 2);
    assert m == 2 by {
      assert IsWordChar(code[3]);
    }
    LexWithMatched(Table, code, 0, Num, 2);
    LexWithMatched(Table, code, 2, Id, 2);
    assert LexWith(Table, code, 4) == Ok([]);
    assert code[0..2] == "12" && code[2..4] == "ab";
    EmitTwo(Token(Num, "12"), Token(Id, "ab"));
  }

  /** The information separator U+001C is blank to `\s`, so `1` followed
      by it lexes as the numeral alone. */
  lemma SeparatorIsBlank()
    ensures Lex("1\U{1C}") == Ok([Token(Num, "1")])
  {
    var code := "1\U{1C}";
    var n := ScanAtDigit(code, 0);
    assert n == 1 by {
      assert !IsDigit(code[1]);
    }
    var m := SpaceRunIsDropped(code, 1);
    assert LexWith(Table, code, 2) == Ok([]);
    LexWithMatched(Table, code, 0, Num, 1);
    assert code[0..1] == "1";
    assert [Token(Num, "1")] + [] == [Token(Num, "1")];
  }

  /** `x @ 1` is rejected at the `@`, carrying `@ 1`. */
  lemma UnknownSymbolRejected()
    ensures Lex("x @ 1") == Err(LexError("@ 1"))
  {
    var code := "x @ 1";
    assert !IsLexable(code[2]);
    assert FirstUnlexable(code, 0) == 2;
    LexSucceedsIffLexable(code);
    assert code[2..] == "@ 1";
  }
}
