/** The lexer's partner in the other direction: writing lexemes one after
    another and lexing the result gives the lexemes back, with the SPACE
    ones dropped, provided no lexeme runs into the next. */
module LexerInverse {
  import opened Chars
  import opened Tokens
  import opened Results
  import opened Lexer
  import opened LexerProperties

  /** A token of kind `k` would swallow a following character `c`: a
      number swallows a digit, an identifier a word character, whitespace
      more whitespace; a one-character token swallows nothing. */
  predicate Extends(k: Kind, c: char) {
    match k
    case Num => IsDigit(c)
    case Id => IsWordChar(c)
    case Space => IsSpace(c)
    case _ => false
  }

  /** Every token is a lexeme of its kind (SPACE included). */
  predicate Lexemes(ts: seq<Token>)
    decreases |ts|
  {
    |ts| == 0 || (Lexeme(ts[0].kind, ts[0].text) && Lexemes(ts[1..]))
  }

  /** No token would swallow the first character of the one after it. */
  predicate Separated(ts: seq<Token>)
    decreases |ts|
  {
    |ts| <= 1 || (|ts[1].text| > 0 && !Extends(ts[0].kind, ts[1].text[0]) && Separated(ts[1..]))
  }

  /** The tokens without the SPACE ones. */
  function Strip(ts: seq<Token>): seq<Token>
    decreases |ts|
  {
    if |ts| == 0 then [] else (if ts[0].kind == Space then [] else [ts[0]]) + Strip(ts[1..])
  }

  lemma LexemeIsNonEmpty(k: Kind, text: string)
    requires Lexeme(k, text)
    ensures |text| > 0
  {
  }

  /** At a one-character symbol, entry `j` of the table (one of PLUS to
      RPAREN) is chosen, with length one: the entries before it start with
      other characters. */
  lemma ScanAtSymbol(code: string, pos: nat, j: nat)
    requires 2 <= j < 9 && pos < |code|
    requires InClass(Table[j].1.first, code[pos])
    ensures Scan(Table, code, pos) == Matched(Table[j].0, 1)
  {
    TableEntries();
    var c := code[pos];
    assert IsSymbol(c) && !IsDigit(c) && !IsIdStart(c);
    forall l | 0 <= l < j
      ensures MatchLength(Table[l].1, code, pos) == 0
    {
    }
    FirstMatchAt(Table, code, pos, 0, j);
  }

  /** A digit run written at `pos` and not followed by a digit is cut
      whole as a NUM. */
  lemma ScanAtNumber(code: string, pos: nat, text: string)
    requires pos + |text| <= |code|
    requires forall i :: 0 <= i < |text| ==> code[pos + i] == text[i]
    requires IsDigits(text)
    requires pos + |text| == |code| || !IsDigit(code[pos + |text|])
    ensures Scan(Table, code, pos) == Matched(Num, |text|)
  {
    assert code[pos] == text[0];
    forall i | pos + 1 <= i < pos + |text|
      ensures InClass(Digit, code[i])
    {
      assert code[pos + (i - pos)] == text[i - pos];
    }
    RunIsSpan(Digit, code, pos + 1, |text| - 1);
    var n := ScanAtDigit(code, pos);
  }

  /** An identifier written at `pos` and not followed by a word character
      is cut whole as an ID. */
  lemma ScanAtIdentifier(code: string, pos: nat, text: string)
    requires pos + |text| <= |code|
    requires forall i :: 0 <= i < |text| ==> code[pos + i] == text[i]
    requires Lexeme(Id, text)
    requires pos + |text| == |code| || !IsWordChar(code[pos + |text|])
    ensures Scan(Table, code, pos) == Matched(Id, |text|)
  {
    assert code[pos] == text[0];
    forall i | pos + 1 <= i < pos + |text|
      ensures InClass(Word, code[i])
    {
      assert code[pos + (i - pos)] == text[i - pos];
    }
    RunIsSpan(Word, code, pos + 1, |text| - 1);
    var n := ScanAtIdStart(code, pos);
  }

  /** A whitespace run written at `pos` and not followed by whitespace is
      cut whole as a SPACE. */
  lemma ScanAtBlank(code: string, pos: nat, text: string)
    requires pos + |text| <= |code|
    requires forall i :: 0 <= i < |text| ==> code[pos + i] == text[i]
    requires Lexeme(Space, text)
    requires pos + |text| == |code| || !IsSpace(code[pos + |text|])
    ensures Scan(Table, code, pos) == Matched(Space, |text|)
  {
    assert code[pos] == text[0];
    forall i | pos + 1 <= i < pos + |text|
      ensures InClass(Blank, code[i])
    {
      assert code[pos + (i - pos)] == text[i - pos];
    }
    RunIsSpan(Blank, code, pos + 1, |text| - 1);
    var n := ScanAtSpace(code, pos);
  }

  /** A lexeme written at `pos` and not followed by a character it would
      swallow is what the scan cuts there. */
  lemma ScanAtLexeme(code: string, pos: nat, t: Token)
    requires pos + |t.text| <= |code| && code[pos..pos + |t.text|] == t.text
    requires Lexeme(t.kind, t.text)
    requires pos + |t.text| == |code| || !Extends(t.kind, code[pos + |t.text|])
    ensures Scan(Table, code, pos) == Matched(t.kind, |t.text|)
  {
    var text := t.text;
    LexemeIsNonEmpty(t.kind, text);
    assert forall i :: 0 <= i < |text| ==> code[pos + i] == text[i] by {
      forall i | 0 <= i < |text|
        ensures code[pos + i] == text[i]
      {
        assert code[pos..pos + |text|][i] == code[pos + i];
      }
    }
    TableEntries();
    match t.kind
    case Num => ScanAtNumber(code, pos, text);
    case Id => ScanAtIdentifier(code, pos, text);
    case Space => ScanAtBlank(code, pos, text);
    case Plus => ScanAtSymbol(code, pos, 2);
    case Minus => ScanAtSymbol(code, pos, 3);
    case Times => ScanAtSymbol(code, pos, 4);
    case Div => ScanAtSymbol(code, pos, 5);
    case Assign => ScanAtSymbol(code, pos, 6);
    case LParen => ScanAtSymbol(code, pos, 7);
    case RParen => ScanAtSymbol(code, pos, 8);
  }

  /** The first lexeme's text, then what the others spell: the text is cut
      off whole and leaves what the others spell. */
  lemma ConcatSplit(code: string, pos: nat, t: Token, rest: seq<Token>)
    requires pos <= |code| && code[pos..] == t.text + Concat(rest)
    ensures pos + |t.text| <= |code|
    ensures code[pos..pos + |t.text|] == t.text
    ensures code[pos + |t.text|..] == Concat(rest)
  {
    var n := |t.text|;
    assert code[pos..pos + n] == (t.text + Concat(rest))[..n];
    assert code[pos + n..] == (t.text + Concat(rest))[n..];
  }

  /** A scan with `entries` at `pos` cuts `t` whole when `code` spells `t`
      there and the character after it does not extend it. */
  predicate CutsAt(entries: seq<(Kind, Pattern)>, code: string, pos: nat, t: Token) {
    pos + |t.text| <= |code| && code[pos..pos + |t.text|] == t.text && Lexeme(t.kind, t.text)
    && (pos + |t.text| == |code| || !Extends(t.kind, code[pos + |t.text|]))
    ==> Scan(entries, code, pos) == Matched(t.kind, |t.text|)
  }

  /** The table cuts every lexeme whole that the next character does not
      extend. */
  ghost predicate CutsLexemes(entries: seq<(Kind, Pattern)>) {
    forall code: string, pos: nat, t: Token :: CutsAt(entries, code, pos, t)
  }

  lemma TableCutsLexemes()
    ensures CutsLexemes(Table)
  {
    forall code: string, pos: nat, t: Token
      ensures CutsAt(Table, code, pos, t)
    {
      if pos + |t.text| <= |code| && code[pos..pos + |t.text|] == t.text && Lexeme(t.kind, t.text)
        && (pos + |t.text| == |code| || !Extends(t.kind, code[pos + |t.text|]))
      {
        ScanAtLexeme(code, pos, t);
      }
    }
  }

  /** The first lexeme is cut whole: the lexeme after it does not extend
      it. */
  lemma ConcatStep(entries: seq<(Kind, Pattern)>, code: string, pos: nat, t: Token, rest: seq<Token>)
    requires CutsLexemes(entries)
    requires pos <= |code| && code[pos..] == t.text + Concat(rest)
    requires Lexeme(t.kind, t.text)
    requires |rest| > 0 ==> |rest[0].text| > 0 && !Extends(t.kind, rest[0].text[0])
    ensures pos + |t.text| <= |code|
    ensures Scan(entries, code, pos) == Matched(t.kind, |t.text|)
  {
    var n := |t.text|;
    ConcatSplit(code, pos, t, rest);
    if pos + n < |code| {
      assert |rest| > 0;
      assert code[pos + n] == code[pos + n..][0] == Concat(rest)[0] == rest[0].text[0];
    }
    assert CutsAt(entries, code, pos, t);
  }

  /** Cutting the first lexeme and then lexing what the others spell gives
      the lexemes, minus the SPACE ones. */
  lemma ConcatLexStep(entries: seq<(Kind, Pattern)>, code: string, pos: nat, t: Token, rest: seq<Token>)
    requires pos + |t.text| <= |code| && code[pos..pos + |t.text|] == t.text && |t.text| > 0
    requires Scan(entries, code, pos) == Matched(t.kind, |t.text|)
    requires LexWith(entries, code, pos + |t.text|) == Ok(Strip(rest))
    ensures LexWith(entries, code, pos) == Ok(Strip([t] + rest))
  {
    LexWithMatched(entries, code, pos, t.kind, |t.text|);
    assert Token(t.kind, t.text) == t;
    assert ([t] + rest)[0] == t && ([t] + rest)[1..] == rest;
    assert [] + Strip(rest) == Strip(rest);
  }

  /** Lexing what separated lexemes spell gives them back, minus the SPACE
      ones. */
  lemma {:induction false} LexWithConcat(entries: seq<(Kind, Pattern)>, code: string, pos: nat, ts: seq<Token>)
    requires CutsLexemes(entries)
    requires pos <= |code| && code[pos..] == Concat(ts)
    requires Lexemes(ts) && Separated(ts)
    ensures LexWith(entries, code, pos) == Ok(Strip(ts))
    decreases |ts|, 1
  {
    if |ts| == 0 {
      assert |code[pos..]| == 0;
    } else {
      assert ts == [ts[0]] + ts[1..];
      LexWithConcatCons(entries, code, pos, ts[0], ts[1..]);
    }
  }

  lemma {:induction false} LexWithConcatCons(entries: seq<(Kind, Pattern)>, code: string, pos: nat, t: Token, rest: seq<Token>)
    requires CutsLexemes(entries)
    requires pos <= |code| && code[pos..] == t.text + Concat(rest)
    requires Lexeme(t.kind, t.text) && Lexemes(rest) && Separated(rest)
    requires |rest| > 0 ==> |rest[0].text| > 0 && !Extends(t.kind, rest[0].text[0])
    ensures LexWith(entries, code, pos) == Ok(Strip([t] + rest))
    decreases |rest| + 1, 0
  {
    ConcatSplit(code, pos, t, rest);
    LexemeIsNonEmpty(t.kind, t.text);
    ConcatStep(entries, code, pos, t, rest);
    LexWithConcat(entries, code, pos + |t.text|, rest);
    ConcatLexStep(entries, code, pos, t, rest);
  }

  /** The inverse, from the start of the input. */
  lemma LexConcat(ts: seq<Token>)
    requires Lexemes(ts) && Separated(ts)
    ensures Lex(Concat(ts)) == Ok(Strip(ts))
  {
    var code := Concat(ts);
    assert code[0..] == code;
    TableCutsLexemes();
    LexWithConcat(Table, code, 0, ts);
  }

  lemma {:induction false} LexemesAppend(a: seq<Token>, b: seq<Token>)
    ensures Lexemes(a + b) <==> Lexemes(a) && Lexemes(b)
    decreases |a|
  {
    if |a| == 0 {
      assert a + b == b;
    } else {
      assert (a + b)[0] == a[0];
      assert (a + b)[1..] == a[1..] + b;
      LexemesAppend(a[1..], b);
    }
  }

  lemma {:induction false} SeparatedAppend(a: seq<Token>, b: seq<Token>)
    requires |a| > 0 && |b| > 0
    ensures Separated(a + b) <==>
      Separated(a) && |b[0].text| > 0 && !Extends(a[|a| - 1].kind, b[0].text[0]) && Separated(b)
    decreases |a|
  {
    assert (a + b)[0] == a[0];
    if |a| == 1 {
      assert (a + b)[1..] == b;
    } else {
      assert (a + b)[1] == a[1];
      assert (a + b)[1..] == a[1..] + b;
      SeparatedAppend(a[1..], b);
    }
  }

  lemma {:induction false} StripAppend(a: seq<Token>, b: seq<Token>)
    ensures Strip(a + b) == Strip(a) + Strip(b)
    decreases |a|
  {
    if |a| == 0 {
      assert a + b == b;
    } else {
      var head := if a[0].kind == Space then [] else [a[0]];
      assert (a + b)[0] == a[0];
      assert (a + b)[1..] == a[1..] + b;
      StripAppend(a[1..], b);
      assert Strip(a + b) == head + (Strip(a[1..]) + Strip(b));
      assert head + (Strip(a[1..]) + Strip(b)) == (head + Strip(a[1..])) + Strip(b);
    }
  }

  /** A single space, as written between the tokens of a spaced-out
      source. */
  const OneSpace := Token(Space, " ")

  /** The tokens from index `i` on are ones the lexer may emit, and each
      one not followed by a space (`gaps[j]` false) does not run into the
      next. */
  predicate Spaceable(ts: seq<Token>, gaps: seq<bool>, i: nat)
    requires |gaps| == |ts|
    decreases |ts| - i
  {
    || i >= |ts|
    || (&& WellFormed(ts[i])
        && (i + 1 < |ts| && !gaps[i] ==> |ts[i + 1].text| > 0 && !Extends(ts[i].kind, ts[i + 1].text[0]))
        && Spaceable(ts, gaps, i + 1))
  }

  /** The tokens from index `i` on, each followed by a single space when
      its entry in `gaps` says so. */
  function LaidOut(ts: seq<Token>, gaps: seq<bool>, i: nat): (r: seq<Token>)
    requires |gaps| == |ts|
    ensures i < |ts| ==> |r| > 0 && r[0] == ts[i]
    decreases |ts| - i
  {
    if i >= |ts| then []
    else (if gaps[i] then [ts[i], OneSpace] else [ts[i]]) + LaidOut(ts, gaps, i + 1)
  }

  /** No lexeme a lexer may emit starts with whitespace. */
  lemma WellFormedStartsSolid(t: Token)
    requires WellFormed(t)
    ensures |t.text| > 0 && !IsSpace(t.text[0])
  {
  }

  /** A token, followed by a space or not. */
  lemma OneOrTwo(t: Token, gap: bool)
    requires WellFormed(t)
    ensures Lexemes(if gap then [t, OneSpace] else [t])
    ensures Separated(if gap then [t, OneSpace] else [t])
    ensures Strip(if gap then [t, OneSpace] else [t]) == [t]
  {
    assert [t][1..] == [];
    assert [t] + [] == [t];
    assert [t, OneSpace][1..] == [OneSpace] && [OneSpace][1..] == [];
    assert Strip([OneSpace]) == [];
  }

  /** Laying out spaceable tokens gives separated lexemes whose non-space
      ones are the tokens themselves. */
  lemma {:induction false} LaidOutIsSeparated(ts: seq<Token>, gaps: seq<bool>, i: nat)
    requires |gaps| == |ts| && i <= |ts| && Spaceable(ts, gaps, i)
    ensures Lexemes(LaidOut(ts, gaps, i)) && Separated(LaidOut(ts, gaps, i))
    ensures Strip(LaidOut(ts, gaps, i)) == ts[i..]
    decreases |ts| - i
  {
    if i < |ts| {
      var rest := LaidOut(ts, gaps, i + 1);
      LaidOutIsSeparated(ts, gaps, i + 1);
      if i + 1 < |ts| {
        WellFormedStartsSolid(ts[i + 1]);
      }
      LaidOutStep(ts[i], gaps[i], rest);
      assert ts[i..] == [ts[i]] + ts[i + 1..];
    }
  }

  /** One step of the layout: a token, then a space if `gap` says so, then
      separated lexemes the token and the space do not run into. */
  lemma LaidOutStep(t: Token, gap: bool, rest: seq<Token>)
    requires WellFormed(t) && Lexemes(rest) && Separated(rest)
    requires |rest| > 0 ==>
      && |rest[0].text| > 0 && !IsSpace(rest[0].text[0])
      && (gap || !Extends(t.kind, rest[0].text[0]))
    ensures var laid := (if gap then [t, OneSpace] else [t]) + rest;
      Lexemes(laid) && Separated(laid) && Strip(laid) == [t] + Strip(rest)
  {
    var head := if gap then [t, OneSpace] else [t];
    OneOrTwo(t, gap);
    if |rest| > 0 {
      assert head[|head| - 1] == (if gap then OneSpace else t);
      Join(head, rest);
    } else {
      assert head + rest == head;
      assert [t] + Strip(rest) == [t];
    }
  }

  /** Joining separated lexemes where neither side runs into the other. */
  lemma Join(a: seq<Token>, b: seq<Token>)
    requires |a| > 0 && |b| > 0
    requires Lexemes(a) && Separated(a) && Lexemes(b) && Separated(b)
    requires |b[0].text| > 0 && !Extends(a[|a| - 1].kind, b[0].text[0])
    ensures Lexemes(a + b) && Separated(a + b) && Strip(a + b) == Strip(a) + Strip(b)
  {
    LexemesAppend(a, b);
    StripAppend(a, b);
    SeparatedAppend(a, b);
  }

  /** The text of the tokens from index `i` on, each followed by a space
      when its entry in `gaps` says so. */
  function Layout(ts: seq<Token>, gaps: seq<bool>, i: nat): string
    requires |gaps| == |ts|
    decreases |ts| - i
  {
    if i >= |ts| then "" else ts[i].text + (if gaps[i] then " " else "") + Layout(ts, gaps, i + 1)
  }

  lemma {:induction false} LaidOutSpellsLayout(ts: seq<Token>, gaps: seq<bool>, i: nat)
    requires |gaps| == |ts|
    ensures Concat(LaidOut(ts, gaps, i)) == Layout(ts, gaps, i)
    decreases |ts| - i
  {
    if i < |ts| {
      var t := ts[i];
      var rest := LaidOut(ts, gaps, i + 1);
      LaidOutSpellsLayout(ts, gaps, i + 1);
      if gaps[i] {
        ConcatCons(t, [OneSpace] + rest);
        ConcatCons(OneSpace, rest);
        assert [t, OneSpace] + rest == [t] + ([OneSpace] + rest);
      } else {
        ConcatCons(t, rest);
      }
    }
  }

  /** Lexing the text of spaceable tokens laid out with spaces where `gaps`
      says gives the tokens back. */
  lemma LexLaidOut(ts: seq<Token>, gaps: seq<bool>)
    requires |gaps| == |ts| && Spaceable(ts, gaps, 0)
    ensures Lex(Layout(ts, gaps, 0)) == Ok(ts)
  {
    LaidOutIsSeparated(ts, gaps, 0);
    LexConcat(LaidOut(ts, gaps, 0));
    LaidOutSpellsLayout(ts, gaps, 0);
    assert ts[0..] == ts;
  }
}
