/**
 * The scanner: a cursor/line state machine over the source text
 * (vScanner/Scanner.cs).
 *
 * The C# scanner mutates `current_location`, `line` and `tokens`; here each
 * helper takes a `ScanState` and returns the next one. A string index outside
 * the source raises IndexOutOfRangeException in C#; here it is the failure
 * `SystemFault(IndexOutOfRange)`.
 *
 * The helpers `Add` and `Match` come in two flavours: `AsWritten`, the code as
 * it stands, and `Intended`, the evident intent (see the Findings in the
 * README). Everything else is shared between the two.
 */
module Scanner {
  import opened Wrappers
  import opened Values
  import opened Tokens
  import opened Errors

  /** Which reading of the `Add` and `Match` helpers to use. */
  datatype Cursoring = AsWritten | Intended

  /** The scanner's mutable fields. */
  datatype ScanState = ScanState(source: string, cursor: int, line: int, tokens: seq<Token>)

  /** A value read by a cursor helper, with the state after reading it. */
  datatype Read<T> = Read(value: T, state: ScanState)

  /** Where the loops of the identifier, string and number scanners stop. */
  datatype CharClass = Digits | AlphaNumerics

  /** The three ways a scan can end. */
  datatype ScanOutcome =
    | Scanned(tokens: seq<Token>)    // the main loop reached the end of input
    | Stopped(fault: Fault)          // an exception escaped
    | Unfinished(state: ScanState)   // the fuel ran out first

  const OutOfRange: Fault := SystemFault(IndexOutOfRange)

  /** A fresh scanner: cursor 0, line 1, no tokens. */
  function Start(source: string): (st: ScanState)
    ensures st.source == source && st.tokens == []
  {
    ScanState(source, 0, 1, [])
  }

  /** The keyword table, including the Luganda-style words. */
  function Keyword(word: string): Option<TokenKind> {
    match word
    case "ne" => Some(LogicalAnd)
    case "class" => Some(Class)
    case "else" => Some(Else)
    case "false" => Some(False)
    case "for" => Some(For)
    case "func" => Some(Func)
    case "if" => Some(If)
    case "nil" => Some(NilKeyword)
    case "oba" => Some(LogicalOr)
    case "wandika" => Some(Print)
    case "return" => Some(Return)
    case "super" => Some(Base)
    case "nze" => Some(This)
    case "true" => Some(True)
    case "var" => Some(Var)
    case "albeit" => Some(While)
    case _ => None
  }

  /** The characters that emit a token of a fixed kind. */
  function SingleCharKind(c: char): Option<TokenKind> {
    match c
    case '(' => Some(LeftParen)
    case ')' => Some(RightParen)
    case '{' => Some(LeftParen)
    case '}' => Some(RightParen)
    case '.' => Some(Dot)
    case '_' => Some(UnderScore)
    case '^' => Some(Caret)
    case '$' => Some(Dollar)
    case '&' => Some(Ampersand)
    case '%' => Some(Percent)
    case '[' => Some(LeftSquare)
    case ']' => Some(RightSquare)
    case '+' => Some(Plus)
    case '-' => Some(Minus)
    case ',' => Some(Comma)
    case '*' => Some(Star)
    case ';' => Some(Semicolon)
    case _ => None
  }

  /** The characters that may be followed by '=' to form a two-character operator. */
  const OperatorChars: string := "=!><"

  /** The kind of an operator character, with or without a following '='. */
  function OperatorKind(c: char, withEqual: bool): TokenKind
    requires c in OperatorChars
  {
    match c
    case '=' => if withEqual then EqualEqual else Equal
    case '!' => if withEqual then BangEqual else Bang
    case '>' => if withEqual then GreaterEqual else Greater
    case '<' => if withEqual then LessEqual else Less
  }

  const DigitChars: string := "0123456789"

  /** The 52 ASCII letters. */
  function AsciiLetters(): string {
    CharRange('a', 26) + CharRange('A', 26)
  }

  predicate IsDigit(c: char) {
    '0' <= c <= '9'
  }

  predicate IsAlpha(c: char) {
    'a' <= c <= 'z' || 'A' <= c <= 'Z'
  }

  predicate IsAlphaNumeric(c: char) {
    IsDigit(c) || IsAlpha(c)
  }

  /** The `n` consecutive characters from `first`. */
  function CharRange(first: char, n: nat): (r: string)
    requires first as int + n <= 128
    ensures |r| == n
    ensures forall i :: 0 <= i < n ==> r[i] as int == first as int + i
    decreases n
  {
    if n == 0 then [] else [first] + CharRange((first as int + 1) as char, n - 1)
  }

  /** `IsDigit` holds of exactly the ten decimal digits. */
  lemma {:induction false} IsDigitExactlyDigits(c: char)
    ensures IsDigit(c) <==> c in DigitChars
  {
    if IsDigit(c) {
      assert DigitChars[c as int - '0' as int] == c;
    }
  }

  lemma {:induction false} CharRangeMembership(c: char, first: char, n: nat)
    requires first as int + n <= 128
    ensures c in CharRange(first, n) <==> first as int <= c as int < first as int + n
  {
    var r := CharRange(first, n);
    if first as int <= c as int < first as int + n {
      assert r[c as int - first as int] == c;
    }
  }

  /** `IsAlpha` holds of exactly the 52 ASCII letters; in particular not of '_'. */
  lemma {:induction false} IsAlphaExactlyLetters(c: char)
    ensures IsAlpha(c) <==> c in AsciiLetters()
    ensures !IsAlpha('_')
  {
    CharRangeMembership(c, 'a', 26);
    CharRangeMembership(c, 'A', 26);
  }

  /** `IsAlphaNumeric` is the union of the two classes. */
  lemma {:induction false} IsAlphaNumericExactlyDigitsAndLetters(c: char)
    ensures IsAlphaNumeric(c) <==> c in DigitChars + AsciiLetters()
  {
    IsDigitExactlyDigits(c);
    IsAlphaExactlyLetters(c);
  }

  predicate Accepts(cls: CharClass, c: char) {
    match cls
    case Digits => IsDigit(c)
    case AlphaNumerics => IsAlphaNumeric(c)
  }

  predicate EOF(st: ScanState) {
    st.cursor >= |st.source|
  }

  /** Returns the character at the cursor and moves past it. */
  function Current(st: ScanState): (r: Result<Read<char>, Fault>)
    ensures r.Success? <==> 0 <= st.cursor < |st.source|
    ensures r.Success? ==> r.value.value == st.source[st.cursor]
    ensures r.Success? ==> r.value.state == st.(cursor := st.cursor + 1)
    ensures r.Failure? ==> r.error == OutOfRange
  {
    if 0 <= st.cursor < |st.source| then
      Success(Read(st.source[st.cursor], st.(cursor := st.cursor + 1)))
    else
      Failure(OutOfRange)
  }

  /** At the end of input returns '\0' without moving; otherwise reads and moves past. */
  function Peek(st: ScanState): (r: Result<Read<char>, Fault>)
    ensures EOF(st) ==> r == Success(Read('\0', st))
    ensures 0 <= st.cursor < |st.source| ==> r == Current(st)
    ensures st.cursor < 0 ==> r == Failure(OutOfRange)
  {
    if EOF(st) then Success(Read('\0', st))
    else if st.cursor < 0 then Failure(OutOfRange)
    else Success(Read(st.source[st.cursor], st.(cursor := st.cursor + 1)))
  }

  /** Returns the character at the cursor and moves back by one. */
  function TrackBack(st: ScanState): (r: Result<Read<char>, Fault>)
    ensures r.Success? <==> 0 <= st.cursor < |st.source|
    ensures r.Success? ==> r.value.value == st.source[st.cursor]
    ensures r.Success? ==> r.value.state == st.(cursor := st.cursor - 1)
    ensures r.Failure? ==> r.error == OutOfRange
  {
    if 0 <= st.cursor < |st.source| then
      Success(Read(st.source[st.cursor], st.(cursor := st.cursor - 1)))
    else
      Failure(OutOfRange)
  }

  /** Moves the cursor back by one. */
  function Rewind(st: ScanState): (r: ScanState)
    ensures r.cursor + 1 == st.cursor
    ensures r == st.(cursor := r.cursor)
  {
    st.(cursor := st.cursor - 1)
  }

  /**
   * Tests the character at the cursor against `expected`. As written: false
   * without moving at the end of input, true WITHOUT moving on a match, and
   * otherwise moves by one and returns false. Intended: moves by one exactly
   * when it matches.
   */
  function Match(st: ScanState, expected: char, mode: Cursoring): (r: Result<Read<bool>, Fault>)
    ensures EOF(st) ==> r == Success(Read(false, st))
    ensures st.cursor < 0 ==> r.Failure?
    ensures 0 <= st.cursor < |st.source| ==> r.Success? && (r.value.value <==> st.source[st.cursor] == expected)
    ensures mode == AsWritten && r.Success? ==>
              r.value.state == st.(cursor := if r.value.value || EOF(st) then st.cursor else st.cursor + 1)
    ensures mode == Intended && r.Success? ==>
              r.value.state == st.(cursor := if r.value.value then st.cursor + 1 else st.cursor)
  {
    if EOF(st) then Success(Read(false, st))
    else if st.cursor < 0 then Failure(OutOfRange)
    else if st.source[st.cursor] == expected then
      if mode == AsWritten then Success(Read(true, st))
      else Success(Read(true, st.(cursor := st.cursor + 1)))
    else
      if mode == AsWritten then Success(Read(false, st.(cursor := st.cursor + 1)))
      else Success(Read(false, st))
  }

  /**
   * Appends a token. Its location is built as (cursor, line) into a
   * constructor whose parameters are (line, column): the `line` field holds
   * the cursor offset and `column` holds the line counter.
   */
  function AddToken(st: ScanState, kind: TokenKind, lexeme: string, literal: Value): (r: ScanState)
    ensures r.source == st.source && r.cursor == st.cursor && r.line == st.line
    ensures |r.tokens| == |st.tokens| + 1 && r.tokens[..|st.tokens|] == st.tokens
    ensures r.tokens[|st.tokens|].kind == kind && r.tokens[|st.tokens|].lexeme == lexeme
    ensures r.tokens[|st.tokens|].literal == literal
    ensures r.tokens[|st.tokens|].location.line == st.cursor
    ensures r.tokens[|st.tokens|].location.column == st.line
  {
    st.(tokens := st.tokens + [Token(kind, lexeme, literal, Location(st.cursor, st.line))])
  }

  /**
   * Emits a token with no literal. As written, the lexeme is the character at
   * the cursor (the one AFTER the character just consumed) and the cursor
   * moves back onto the consumed character. Intended: the lexeme is the text
   * consumed since `start`, and the cursor stays put.
   */
  function Add(st: ScanState, kind: TokenKind, mode: Cursoring, start: int): (r: Result<ScanState, Fault>)
    ensures mode == AsWritten ==> (r.Success? <==> 0 <= st.cursor < |st.source|)
    ensures mode == AsWritten && r.Success? ==>
              r.value == AddToken(st.(cursor := st.cursor - 1), kind, [st.source[st.cursor]], Nil)
    ensures mode == Intended ==> (r.Success? <==> 0 <= start <= st.cursor <= |st.source|)
    ensures mode == Intended && r.Success? ==>
              r.value == AddToken(st, kind, st.source[start..st.cursor], Nil)
  {
    if mode == AsWritten then
      var back :- TrackBack(st);
      Success(AddToken(back.state, kind, [back.value], Nil))
    else if 0 <= start <= st.cursor <= |st.source| then
      Success(AddToken(st, kind, st.source[start..st.cursor], Nil))
    else
      Failure(OutOfRange)
  }

  /**
   * The text a peek/append loop collects from offset `from`: its `j`-th
   * character is the one at `from + 2j + 1`, appended after the peek at
   * `from + 2j` accepted.
   */
  ghost predicate Collected(source: string, from: int, cls: CharClass, text: string) {
    forall j :: 0 <= j < |text| ==>
      && 0 <= from + 2 * j && from + 2 * j + 1 < |source|
      && Accepts(cls, source[from + 2 * j])
      && text[j] == source[from + 2 * j + 1]
  }

  /**
   * Where a peek/append loop from `from` that collected `text` stops: the
   * peek after the last round either found the end of the source (and did
   * not move) or read a character the class rejects (and moved past it).
   */
  ghost predicate RunEnds(source: string, from: int, cls: CharClass, text: string, cursor: int) {
    var end := from + 2 * |text|;
    || (end >= |source| && cursor == end)
    || (0 <= end < |source| && !Accepts(cls, source[end]) && cursor == end + 1)
  }

  /** Prepending one round to a collected text keeps where the loop stopped. */
  lemma {:induction false} RunEndsCons(source: string, from: int, cls: CharClass, c: char, rest: string, cursor: int)
    requires RunEnds(source, from + 2, cls, rest, cursor)
    ensures RunEnds(source, from, cls, [c] + rest, cursor)
  {
    assert from + 2 * |[c] + rest| == (from + 2) + 2 * |rest|;
  }

  /** Prepending one peeked-and-appended round to a collected text. */
  lemma {:induction false} CollectedCons(source: string, from: int, cls: CharClass, c: char, rest: string)
    requires 0 <= from && from + 1 < |source|
    requires Accepts(cls, source[from]) && c == source[from + 1]
    requires Collected(source, from + 2, cls, rest)
    ensures Collected(source, from, cls, [c] + rest)
  {
    var text := [c] + rest;
    forall j | 0 <= j < |text|
      ensures && 0 <= from + 2 * j && from + 2 * j + 1 < |source|
              && Accepts(cls, source[from + 2 * j])
              && text[j] == source[from + 2 * j + 1]
    {
      if j > 0 {
        assert text[j] == rest[j - 1];
        assert from + 2 * j == (from + 2) + 2 * (j - 1);
      }
    }
  }

  /**
   * `while (Accepts(Peek())) text.Append(Current());` — every round peeks at
   * one character and appends the NEXT one, so the collected text is the
   * characters at odd offsets from the starting cursor.
   */
  function BuildWhile(st: ScanState, cls: CharClass): (r: Result<Read<string>, Fault>)
    decreases |st.source| - st.cursor
    ensures r.Success? ==> Built(st, cls, r.value)
  {
    match Peek(st)
    case Failure(f) => Failure(f)
    case Success(peeked) =>
      if !Accepts(cls, peeked.value) then
        BuildStops(st, cls, peeked);
        Success(Read("", peeked.state))
      else
        match Current(peeked.state)
        case Failure(f) => Failure(f)
        case Success(cur) =>
          match BuildWhile(cur.state, cls)
          case Failure(f) => Failure(f)
          case Success(rest) =>
            BuildGrows(st, cls, cur.value, rest);
            Success(Read([cur.value] + rest.value, rest.state))
  }

  /**
   * What `BuildWhile` promises of a successful read from `st`: only the
   * cursor moves; the text is the collected run; the loop stopped at the end
   * of the source or past the first rejected peek; and inside the source it
   * moved forward.
   */
  ghost predicate Built(st: ScanState, cls: CharClass, r: Read<string>) {
    && r.state == st.(cursor := r.state.cursor)
    && Collected(st.source, st.cursor, cls, r.value)
    && st.cursor + 2 * |r.value| <= r.state.cursor <= st.cursor + 2 * |r.value| + 1
    && (0 <= st.cursor < |st.source| ==> r.state.cursor > st.cursor)
    && RunEnds(st.source, st.cursor, cls, r.value, r.state.cursor)
  }

  /** A peek that is not accepted ends the loop with nothing collected. */
  lemma {:induction false} BuildStops(st: ScanState, cls: CharClass, peeked: Read<char>)
    requires Peek(st) == Success(peeked) && !Accepts(cls, peeked.value)
    ensures Built(st, cls, Read("", peeked.state))
  {
    if EOF(st) {
      assert peeked.state == st;
    } else {
      assert peeked == Read(st.source[st.cursor], st.(cursor := st.cursor + 1));
    }
  }

  /** An accepted peek followed by an append prepends one character to the rest of the loop. */
  lemma {:induction false} BuildGrows(st: ScanState, cls: CharClass, c: char, rest: Read<string>)
    requires 0 <= st.cursor && st.cursor + 1 < |st.source|
    requires Accepts(cls, st.source[st.cursor]) && c == st.source[st.cursor + 1]
    requires Built(st.(cursor := st.cursor + 2), cls, rest)
    ensures Built(st, cls, Read([c] + rest.value, rest.state))
  {
    CollectedCons(st.source, st.cursor, cls, c, rest.value);
    RunEndsCons(st.source, st.cursor, cls, c, rest.value, rest.state.cursor);
  }

  /**
   * Where `Trim('"')` cuts `s[lo..hi]`: every character dropped is a quote,
   * and what is kept neither starts nor ends with one.
   */
  function TrimBounds(s: string, lo: nat, hi: nat): (r: (nat, nat))
    requires lo <= hi <= |s|
    ensures lo <= r.0 <= r.1 <= hi
    ensures forall k :: lo <= k < r.0 ==> s[k] == '"'
    ensures forall k :: r.1 <= k < hi ==> s[k] == '"'
    ensures r.0 == r.1 || (s[r.0] != '"' && s[r.1 - 1] != '"')
    decreases hi - lo
  {
    if lo < hi && s[lo] == '"' then TrimBounds(s, lo + 1, hi)
    else if lo < hi && s[hi - 1] == '"' then TrimBounds(s, lo, hi - 1)
    else (lo, hi)
  }

  /** Removes every leading and trailing '"' (C#'s `Trim('"')`). */
  function TrimQuotes(s: string): (r: string)
    ensures |r| == 0 || (r[0] != '"' && r[|r| - 1] != '"')
    ensures exists i, j :: 0 <= i <= j <= |s| && r == s[i..j]
              && (forall k :: 0 <= k < i ==> s[k] == '"') && (forall k :: j <= k < |s| ==> s[k] == '"')
  {
    var b := TrimBounds(s, 0, |s|);
    s[b.0..b.1]
  }

  /** The scanner's effect on the token list: nothing, or one more token that is not EOF. */
  ghost predicate Extends(st: ScanState, next: ScanState) {
    && next.source == st.source
    && |st.tokens| <= |next.tokens| <= |st.tokens| + 1
    && next.tokens[..|st.tokens|] == st.tokens
    && forall k :: |st.tokens| <= k < |next.tokens| ==> next.tokens[k].kind != Eof
  }

  /** No keyword is scanned as the EOF kind. */
  lemma {:induction false} KeywordIsNotEof(word: string)
    ensures Keyword(word) != Some(Eof)
  {
  }

  /** A token that is not EOF extends the list by one. */
  lemma {:induction false} AddTokenExtends(st: ScanState, kind: TokenKind, lexeme: string, literal: Value)
    requires kind != Eof
    ensures Extends(st, AddToken(st, kind, lexeme, literal))
  {
  }

  /**
   * Skips a `//` comment: `while (Peek() != '\0') if (Current() == '\n') break;`.
   * The terminating newline is consumed without counting a line.
   */
  function ScanComment(st: ScanState): (r: Result<ScanState, Fault>)
    ensures r.Success? ==> Extends(st, r.value)
    decreases |st.source| - st.cursor
    ensures r.Success? ==> r.value == st.(cursor := r.value.cursor) && r.value.cursor >= st.cursor
  {
    var peeked :- Peek(st);
    if peeked.value == '\0' then Success(peeked.state)
    else
      var cur :- Current(peeked.state);
      if cur.value == '\n' then Success(cur.state) else ScanComment(cur.state)
  }

  /**
   * Scans a word. After the dispatching `Current` the cursor is rewound onto
   * the word's first letter. A word in the keyword table gets the keyword's
   * kind and no literal; any other word is an identifier whose literal is its
   * text.
   */
  function ScanIdentifier(st: ScanState): (r: Result<ScanState, Fault>)
    ensures r.Success? ==> Extends(st, r.value)
    ensures r.Success? ==>
              && r.value.source == st.source && r.value.line == st.line
              && |r.value.tokens| == |st.tokens| + 1 && r.value.tokens[..|st.tokens|] == st.tokens
              && var t := r.value.tokens[|st.tokens|];
                 && (Keyword(t.lexeme).Some? ==> t.kind == Keyword(t.lexeme).value && t.literal == Nil)
                 && (Keyword(t.lexeme).None? ==> t.kind == Identifier && t.literal == Str(t.lexeme))
    ensures r.Success? ==>
              var t := r.value.tokens[|st.tokens|];
              && Collected(st.source, st.cursor - 1, AlphaNumerics, t.lexeme)
              && RunEnds(st.source, st.cursor - 1, AlphaNumerics, t.lexeme, r.value.cursor)
    ensures r.Success? && 0 < st.cursor <= |st.source| ==> r.value.cursor >= st.cursor
  {
    var word :- BuildWhile(Rewind(st), AlphaNumerics);
    var text := word.value;
    match Keyword(text)
    case Some(kind) =>
      KeywordIsNotEof(text);
      AddTokenExtends(word.state, kind, text, Nil);
      Success(AddToken(word.state, kind, text, Nil))
    case None =>
      AddTokenExtends(word.state, Identifier, text, Str(text));
      Success(AddToken(word.state, Identifier, text, Str(text)))
  }

  /**
   * Scans a string literal: the alphanumeric-peek loop from the character
   * after the opening quote, with the quotes trimmed off.
   */
  function ScanString(st: ScanState): (r: Result<ScanState, Fault>)
    ensures r.Success? ==> Extends(st, r.value)
    ensures r.Success? ==>
              && r.value.source == st.source && r.value.line == st.line && r.value.cursor >= st.cursor
              && |r.value.tokens| == |st.tokens| + 1 && r.value.tokens[..|st.tokens|] == st.tokens
              && var t := r.value.tokens[|st.tokens|];
                 t.kind == String && t.literal == Str(t.lexeme)
  {
    var text :- BuildWhile(st, AlphaNumerics);
    var trimmed := TrimQuotes(text.value);
    AddTokenExtends(text.state, String, trimmed, Str(trimmed));
    Success(AddToken(text.state, String, trimmed, Str(trimmed)))
  }

  /**
   * Scans a number: rewind onto the first digit, collect, and collect again
   * after a peeked '.'. The text is converted by `parseNumber`, the host's
   * `double.Parse`, which rejects what it cannot read.
   */
  function ScanNumber(st: ScanState, parseNumber: string -> Option<real>): (r: Result<ScanState, Fault>)
    ensures r.Success? ==> Extends(st, r.value)
    ensures r.Success? ==>
              && r.value.source == st.source && r.value.line == st.line
              && |r.value.tokens| == |st.tokens| + 1 && r.value.tokens[..|st.tokens|] == st.tokens
              && var t := r.value.tokens[|st.tokens|];
                 t.kind == Number && t.literal.Num? && parseNumber(t.lexeme) == Some(t.literal.n)
    ensures r.Success? && 0 < st.cursor <= |st.source| ==> r.value.cursor >= st.cursor
  {
    var whole :- BuildWhile(Rewind(st), Digits);
    var dot :- Peek(whole.state);
    var number :- if dot.value == '.' then
                    var fraction :- BuildWhile(dot.state, Digits);
                    Success(Read(whole.value + fraction.value, fraction.state))
                  else Success(Read(whole.value, dot.state));
    match parseNumber(number.value)
    case None => Failure(SystemFault(BadNumberFormat))
    case Some(x) =>
      AddTokenExtends(number.state, Number, number.value, Num(x));
      Success(AddToken(number.state, Number, number.value, Num(x)))
  }

  /** `Add`: one more token, of the given kind. */
  lemma {:induction false} AddExtends(st: ScanState, kind: TokenKind, mode: Cursoring, start: int)
    requires kind != Eof
    requires Add(st, kind, mode, start).Success?
    ensures Extends(st, Add(st, kind, mode, start).value)
  {
    if mode == AsWritten {
      AddTokenExtends(st.(cursor := st.cursor - 1), kind, [st.source[st.cursor]], Nil);
    } else {
      AddTokenExtends(st, kind, st.source[start..st.cursor], Nil);
    }
  }

  /** `=`, `!`, `>` and `<`: the `…EQUAL` kind exactly when `Match('=')` says true. */
  function ScanOperator(s: ScanState, c: char, mode: Cursoring, start: int): (r: Result<ScanState, Fault>)
    requires c in OperatorChars
    requires s.cursor == start + 1
    ensures r.Success? ==> Extends(s, r.value)
    ensures mode == Intended && r.Success? ==> r.value.cursor > start
  {
    match Match(s, '=', mode)
    case Failure(f) => Failure(f)
    case Success(m) =>
      var r := Add(m.state, OperatorKind(c, m.value), mode, start);
      if r.Success? then AddExtends(m.state, OperatorKind(c, m.value), mode, start); r else r
  }

  /** `/`: a comment when `Match('/')` says true, otherwise a SLASH token. */
  function ScanSlash(s: ScanState, mode: Cursoring, start: int): (r: Result<ScanState, Fault>)
    requires s.cursor == start + 1
    ensures r.Success? ==> Extends(s, r.value)
    ensures mode == Intended && r.Success? ==> r.value.cursor > start
  {
    match Match(s, '/', mode)
    case Failure(f) => Failure(f)
    case Success(m) =>
      if m.value then ScanComment(m.state)
      else
        var r := Add(m.state, Slash, mode, start);
        if r.Success? then AddExtends(m.state, Slash, mode, start); r else r
  }

  /** The dispatch on the character `c` just read; `s` is the state after reading it. */
  function Dispatch(c: char, s: ScanState, mode: Cursoring, start: int, parseNumber: string -> Option<real>): (r: Result<ScanState, Fault>)
    requires 0 <= start < |s.source| && s.cursor == start + 1
    ensures r.Success? ==> Extends(s, r.value)
    ensures mode == Intended && r.Success? ==> r.value.cursor > start
  {
    if c == '\n' then
      Success(s.(line := s.line + 1))
    else if SingleCharKind(c).Some? then
      var r := Add(s, SingleCharKind(c).value, mode, start);
      if r.Success? then AddExtends(s, SingleCharKind(c).value, mode, start); r else r
    else if c in OperatorChars then
      ScanOperator(s, c, mode, start)
    else if c == '"' then
      ScanString(s)
    else if c == '\r' || c == '\t' then
      Success(s)
    else if c == '/' then
      ScanSlash(s, mode, start)
    else if IsDigit(c) then
      ScanNumber(s, parseNumber)
    else if IsAlpha(c) then
      ScanIdentifier(s)
    else
      Success(s)
  }

  /**
   * One round of the main loop: read a character and dispatch on it.
   * Unknown characters (a space among them) are skipped without a report.
   */
  function ScanTokens(st: ScanState, mode: Cursoring, parseNumber: string -> Option<real>): (r: Result<ScanState, Fault>)
    ensures r.Success? ==> Extends(st, r.value)
    ensures mode == Intended && r.Success? ==> r.value.cursor > st.cursor
  {
    match Current(st)
    case Failure(f) => Failure(f)
    case Success(cur) => Dispatch(cur.value, cur.state, mode, st.cursor, parseNumber)
  }

  /** A finished token list: the tokens `done` scanned before, then tokens none of which is EOF, then EOF. */
  predicate Finishes(done: seq<Token>, tokens: seq<Token>) {
    && |tokens| > |done| && tokens[..|done|] == done
    && tokens[|tokens| - 1].kind == Eof
    && forall k :: |done| <= k < |tokens| - 1 ==> tokens[k].kind != Eof
  }

  /** Appending EOF finishes any token list. */
  lemma {:induction false} EofFinishes(done: seq<Token>, eof: Token)
    requires eof.kind == Eof
    ensures Finishes(done, done + [eof])
  {
    assert (done + [eof])[..|done|] == done;
  }

  /** A round that extends the token list keeps what the rest of the scan finishes. */
  lemma {:induction false} KeepsPrefix(st: ScanState, next: ScanState, last: seq<Token>)
    requires Extends(st, next) && Finishes(next.tokens, last)
    ensures Finishes(st.tokens, last)
  {
    var first, second := st.tokens, next.tokens;
    assert last[..|first|] == last[..|second|][..|first|];
    forall k | |first| <= k < |last| - 1
      ensures last[k].kind != Eof
    {
      if k < |second| {
        assert last[k] == last[..|second|][k];
      }
    }
  }

  /** `AddToken(EOF, "", null)`, the end-of-input token. */
  function EofToken(st: ScanState): Token {
    Token(Eof, "", Nil, Location(st.cursor, st.line))
  }

  /**
   * The main loop `while (!EOF()) ScanTokens();` followed by the EOF token,
   * run for at most `fuel` rounds, since as written a round need not move
   * the cursor.
   */
  function ScanLoop(st: ScanState, mode: Cursoring, parseNumber: string -> Option<real>, fuel: nat): (r: ScanOutcome)
    decreases fuel
    ensures r.Scanned? ==> Finishes(st.tokens, r.tokens)
  {
    if EOF(st) then
      EofFinishes(st.tokens, EofToken(st));
      Scanned(st.tokens + [EofToken(st)])
    else if fuel == 0 then
      Unfinished(st)
    else
      match ScanTokens(st, mode, parseNumber)
      case Failure(f) => Stopped(f)
      case Success(next) =>
        var r := ScanLoop(next, mode, parseNumber, fuel - 1);
        if r.Scanned? then
          KeepsPrefix(st, next, r.tokens);
          r
        else r
  }

  /** `ScanSourceCode` as written, with a bound on the number of rounds. */
  function ScanSourceCode(source: string, parseNumber: string -> Option<real>, fuel: nat): (r: ScanOutcome)
    ensures r.Scanned? ==>
              && |r.tokens| > 0
              && r.tokens[|r.tokens| - 1].kind == Eof
              && forall k :: 0 <= k < |r.tokens| - 1 ==> r.tokens[k].kind != Eof
  {
    ScanLoop(Start(source), AsWritten, parseNumber, fuel)
  }

  /** The intended main loop: every round moves the cursor, so no fuel is needed. */
  function ScanLoopIntended(st: ScanState, parseNumber: string -> Option<real>): (r: Result<seq<Token>, Fault>)
    decreases |st.source| - st.cursor
    ensures r.Success? ==> Finishes(st.tokens, r.value)
  {
    if EOF(st) then
      EofFinishes(st.tokens, EofToken(st));
      Success(st.tokens + [EofToken(st)])
    else
      var next :- ScanTokens(st, Intended, parseNumber);
      var r := ScanLoopIntended(next, parseNumber);
      if r.Success? then
        KeepsPrefix(st, next, r.value);
        r
      else r
  }

  /** `ScanSourceCode` with the intended `Add` and `Match`: terminates on every input. */
  function ScanSourceIntended(source: string, parseNumber: string -> Option<real>): (r: Result<seq<Token>, Fault>)
    ensures r.Success? ==>
              && |r.value| > 0
              && r.value[|r.value| - 1].kind == Eof
              && forall k :: 0 <= k < |r.value| - 1 ==> r.value[k].kind != Eof
  {
    ScanLoopIntended(Start(source), parseNumber)
  }

  // ---------------------------------------------------------------------
  // Properties of one round of the main loop
  // ---------------------------------------------------------------------

  /** A newline counts a line and emits nothing; '\r' and '\t' emit nothing. */
  lemma {:induction false} LayoutEmitsNothing(st: ScanState, mode: Cursoring, parseNumber: string -> Option<real>)
    requires 0 <= st.cursor < |st.source|
    requires st.source[st.cursor] in "\n\r\t"
    ensures ScanTokens(st, mode, parseNumber).Success?
    ensures var next := ScanTokens(st, mode, parseNumber).value;
            && next.tokens == st.tokens && next.cursor == st.cursor + 1
            && next.line == (if st.source[st.cursor] == '\n' then st.line + 1 else st.line)
  {
  }

  /** Braces are scanned as parentheses: '{' gives LEFT_PAREN and '}' gives RIGHT_PAREN. */
  lemma {:induction false} BracesAreParens()
    ensures SingleCharKind('{') == SingleCharKind('(') == Some(LeftParen)
    ensures SingleCharKind('}') == SingleCharKind(')') == Some(RightParen)
  {
  }

  /** One round of the main loop, as a function of the state. */
  function Round(mode: Cursoring, parseNumber: string -> Option<real>): ScanState -> Result<ScanState, Fault> {
    st => ScanTokens(st, mode, parseNumber)
  }

  /**
   * The main loop's control flow with the round left abstract, so that what
   * holds of the loop whatever a round does is proved once, without
   * unfolding the scanner's dispatch.
   */
  ghost function Rounds(st: ScanState, round: ScanState -> Result<ScanState, Fault>, fuel: nat): ScanOutcome
    decreases fuel
  {
    if EOF(st) then Scanned(st.tokens + [EofToken(st)])
    else if fuel == 0 then Unfinished(st)
    else
      match round(st)
      case Failure(f) => Stopped(f)
      case Success(next) => Rounds(next, round, fuel - 1)
  }

  /** `ScanLoop` is that control flow over the scanner's own round. */
  lemma {:induction false} LoopIsRounds(st: ScanState, mode: Cursoring, parseNumber: string -> Option<real>, fuel: nat)
    ensures ScanLoop(st, mode, parseNumber, fuel) == Rounds(st, Round(mode, parseNumber), fuel)
    decreases fuel
  {
    if !EOF(st) && fuel > 0 {
      assert Round(mode, parseNumber)(st) == ScanTokens(st, mode, parseNumber);
      match ScanTokens(st, mode, parseNumber)
      case Failure(_) =>
      case Success(next) => LoopIsRounds(next, mode, parseNumber, fuel - 1);
    }
  }

  /** A round from `st` succeeds and lands in a state that is again `stuck`. */
  ghost predicate Stays(st: ScanState, round: ScanState -> Result<ScanState, Fault>, stuck: ScanState -> bool) {
    !EOF(st) && round(st).Success? && stuck(round(st).value)
  }

  /** A loop from a set of states that every round stays in never finishes, whatever the fuel. */
  lemma {:induction false} StuckNeverFinishes(st: ScanState, round: ScanState -> Result<ScanState, Fault>, fuel: nat, stuck: ScanState -> bool)
    requires stuck(st)
    requires forall s {:trigger Stays(s, round, stuck)} :: stuck(s) ==> Stays(s, round, stuck)
    ensures Rounds(st, round, fuel).Unfinished?
    decreases fuel
  {
    if fuel > 0 {
      assert Stays(st, round, stuck);
      StuckNeverFinishes(round(st).value, round, fuel - 1, stuck);
    }
  }

  /**
   * As written, a one-character token leaves the cursor where the round
   * started: `Current` moves forward, then `TrackBack` reads the NEXT
   * character as the lexeme and moves back. On the last character the
   * read falls off the end of the source.
   */
  lemma {:induction false} SingleCharRoundDoesNotAdvance(st: ScanState, parseNumber: string -> Option<real>)
    requires 0 <= st.cursor < |st.source|
    requires SingleCharKind(st.source[st.cursor]).Some?
    ensures st.cursor + 1 == |st.source| ==>
              ScanTokens(st, AsWritten, parseNumber) == Failure(OutOfRange)
    ensures st.cursor + 1 < |st.source| ==>
              ScanTokens(st, AsWritten, parseNumber) ==
              Success(AddToken(st, SingleCharKind(st.source[st.cursor]).value, [st.source[st.cursor + 1]], Nil))
  {
  }

  /**
   * Hence, as written, a source that starts with a one-character token and
   * has a second character never finishes scanning, however many rounds the
   * loop is given: every round re-reads the first character.
   */
  lemma {:induction false} SingleCharSourceNeverFinishes(st: ScanState, parseNumber: string -> Option<real>, fuel: nat)
    requires 0 <= st.cursor && st.cursor + 1 < |st.source|
    requires SingleCharKind(st.source[st.cursor]).Some?
    ensures ScanLoop(st, AsWritten, parseNumber, fuel).Unfinished?
  {
    forall s | SingleCharAhead(s) ensures Stays(s, Round(AsWritten, parseNumber), SingleCharAhead) {
      SingleCharRoundDoesNotAdvance(s, parseNumber);
      assert Round(AsWritten, parseNumber)(s) == ScanTokens(s, AsWritten, parseNumber);
    }
    StuckNeverFinishes(st, Round(AsWritten, parseNumber), fuel, SingleCharAhead);
    LoopIsRounds(st, AsWritten, parseNumber, fuel);
  }

  /** The cursor is on a one-character token with another character after it. */
  predicate SingleCharAhead(st: ScanState) {
    0 <= st.cursor && st.cursor + 1 < |st.source| && SingleCharKind(st.source[st.cursor]).Some?
  }

  /** `ScanSourceCode("((")` does not finish for any number of rounds. */
  lemma {:induction false} TwoParensNeverFinish(parseNumber: string -> Option<real>, fuel: nat)
    ensures ScanSourceCode("((", parseNumber, fuel).Unfinished?
  {
    SingleCharSourceNeverFinishes(Start("(("), parseNumber, fuel);
  }

  /**
   * As written, an operator character followed by '=' emits the `…EQUAL`
   * kind with lexeme "=" and leaves the cursor on the operator. Followed by
   * anything else it emits the one-character kind, leaves the cursor on the
   * character after the operator (which the next round reads), and takes
   * the character after THAT as the lexeme.
   */
  lemma {:induction false} OperatorRoundAsWritten(st: ScanState, parseNumber: string -> Option<real>)
    requires 0 <= st.cursor && st.cursor + 1 < |st.source|
    requires st.source[st.cursor] in OperatorChars
    ensures var c := st.source[st.cursor];
            var r := ScanTokens(st, AsWritten, parseNumber);
            && (st.source[st.cursor + 1] == '=' ==>
                  r == Success(AddToken(st, OperatorKind(c, true), "=", Nil)))
            && (st.source[st.cursor + 1] != '=' && st.cursor + 2 == |st.source| ==>
                  r == Failure(OutOfRange))
            && (st.source[st.cursor + 1] != '=' && st.cursor + 2 < |st.source| ==>
                  r == Success(AddToken(st.(cursor := st.cursor + 1), OperatorKind(c, false),
                                        [st.source[st.cursor + 2]], Nil)))
  {
    var c := st.source[st.cursor];
    OperatorDispatch(st, c, st.(cursor := st.cursor + 1), AsWritten, parseNumber);
    if st.source[st.cursor + 1] == '=' {
    } else if st.cursor + 2 == |st.source| {
    } else {
    }
  }

  /** As written, a round on an operator followed by '=' lands on the same operator. */
  lemma {:induction false} OperatorEqualRoundStays(st: ScanState, parseNumber: string -> Option<real>)
    requires 0 <= st.cursor && st.cursor + 1 < |st.source|
    requires st.source[st.cursor] in OperatorChars && st.source[st.cursor + 1] == '='
    ensures Stays(st, Round(AsWritten, parseNumber), OperatorEqualAhead)
  {
    OperatorRoundAsWritten(st, parseNumber);
    assert Round(AsWritten, parseNumber)(st) == ScanTokens(st, AsWritten, parseNumber);
  }

  /** The cursor is on an operator character followed by '='. */
  predicate OperatorEqualAhead(st: ScanState) {
    0 <= st.cursor && st.cursor + 1 < |st.source| && st.source[st.cursor] in OperatorChars && st.source[st.cursor + 1] == '='
  }

  /**
   * Hence, as written, a source whose current character is an operator
   * followed by '=' never finishes scanning: every round re-reads the
   * operator.
   */
  lemma {:induction false} OperatorEqualSourceNeverFinishes(st: ScanState, parseNumber: string -> Option<real>, fuel: nat)
    requires 0 <= st.cursor && st.cursor + 1 < |st.source|
    requires st.source[st.cursor] in OperatorChars && st.source[st.cursor + 1] == '='
    ensures ScanLoop(st, AsWritten, parseNumber, fuel).Unfinished?
  {
    forall s | OperatorEqualAhead(s) ensures Stays(s, Round(AsWritten, parseNumber), OperatorEqualAhead) {
      OperatorEqualRoundStays(s, parseNumber);
    }
    StuckNeverFinishes(st, Round(AsWritten, parseNumber), fuel, OperatorEqualAhead);
    LoopIsRounds(st, AsWritten, parseNumber, fuel);
  }

  /** `ScanSourceCode(">=")` does not finish for any number of rounds. */
  lemma {:induction false} GreaterEqualNeverFinishes(parseNumber: string -> Option<real>, fuel: nat)
    ensures ScanSourceCode(">=", parseNumber, fuel).Unfinished?
  {
    OperatorEqualSourceNeverFinishes(Start(">="), parseNumber, fuel);
  }

  /** A round that reads an operator character scans an operator. */
  lemma {:induction false} OperatorDispatch(st: ScanState, c: char, s: ScanState, mode: Cursoring, parseNumber: string -> Option<real>)
    requires 0 <= st.cursor < |st.source| && c == st.source[st.cursor] && c in OperatorChars
    requires s == st.(cursor := st.cursor + 1)
    ensures ScanTokens(st, mode, parseNumber) == ScanOperator(s, c, mode, st.cursor)
  {
    RoundDispatches(st, c, s, mode, parseNumber);
    OperatorCharDispatch(c, s, mode, st.cursor, parseNumber);
  }

  /** A round reads the current character and dispatches on it. */
  lemma {:induction false} RoundDispatches(st: ScanState, c: char, s: ScanState, mode: Cursoring, parseNumber: string -> Option<real>)
    requires 0 <= st.cursor < |st.source| && c == st.source[st.cursor]
    requires s == st.(cursor := st.cursor + 1)
    ensures ScanTokens(st, mode, parseNumber) == Dispatch(c, s, mode, st.cursor, parseNumber)
  {
    assert Current(st) == Success(Read(c, s));
  }

  lemma {:induction false} OperatorCharDispatch(c: char, s: ScanState, mode: Cursoring, start: int, parseNumber: string -> Option<real>)
    requires 0 <= start < |s.source| && s.cursor == start + 1 && c in OperatorChars
    ensures Dispatch(c, s, mode, start, parseNumber) == ScanOperator(s, c, mode, start)
  {
    assert SingleCharKind(c) == None by {
      assert c == '=' || c == '!' || c == '>' || c == '<';
    }
  }

  /**
   * Intended: an operator character followed by '=' emits the `…EQUAL` kind
   * with both characters as lexeme and moves past both; otherwise it emits
   * the one-character kind and moves past the operator only.
   */
  lemma {:induction false} OperatorRoundIntended(st: ScanState, parseNumber: string -> Option<real>)
    requires 0 <= st.cursor < |st.source|
    requires st.source[st.cursor] in OperatorChars
    ensures var c := st.source[st.cursor];
            var r := ScanTokens(st, Intended, parseNumber);
            var equal := st.cursor + 1 < |st.source| && st.source[st.cursor + 1] == '=';
            var width := if equal then 2 else 1;
            r == Success(AddToken(st.(cursor := st.cursor + width), OperatorKind(c, equal),
                                  st.source[st.cursor..st.cursor + width], Nil))
  {
    OperatorDispatch(st, st.source[st.cursor], st.(cursor := st.cursor + 1), Intended, parseNumber);
  }

  /**
   * Intended: a one-character token moves the cursor past its character and
   * takes that character as its lexeme.
   */
  lemma {:induction false} SingleCharRoundIntended(st: ScanState, parseNumber: string -> Option<real>)
    requires 0 <= st.cursor < |st.source|
    requires SingleCharKind(st.source[st.cursor]).Some?
    ensures ScanTokens(st, Intended, parseNumber) ==
            Success(AddToken(st.(cursor := st.cursor + 1), SingleCharKind(st.source[st.cursor]).value,
                             [st.source[st.cursor]], Nil))
  {
    assert st.source[st.cursor..st.cursor + 1] == [st.source[st.cursor]];
  }

  /** With the intended helpers, "((" scans to two LEFT_PAREN tokens and EOF. */
  lemma {:induction false} TwoParensIntended(source: string, parseNumber: string -> Option<real>)
    requires source == "(("
    ensures ScanSourceIntended(source, parseNumber) ==
            Success([Token(LeftParen, "(", Nil, Location(1, 1)),
                     Token(LeftParen, "(", Nil, Location(2, 1)),
                     Token(Eof, "", Nil, Location(2, 1))])
  {
    var s0 := Start(source);
    SingleCharRoundIntended(s0, parseNumber);
    var s1 := AddToken(s0.(cursor := 1), LeftParen, "(", Nil);
    SingleCharRoundIntended(s1, parseNumber);
    var s2 := AddToken(s1.(cursor := 2), LeftParen, "(", Nil);
    assert ScanTokens(s0, Intended, parseNumber) == Success(s1);
    assert ScanTokens(s1, Intended, parseNumber) == Success(s2);
    assert ScanLoopIntended(s2, parseNumber) == Success(s2.tokens + [EofToken(s2)]);
    assert ScanLoopIntended(s1, parseNumber) == ScanLoopIntended(s2, parseNumber);
    assert ScanLoopIntended(s0, parseNumber) == ScanLoopIntended(s1, parseNumber);
    assert s2.tokens + [EofToken(s2)] ==
           [Token(LeftParen, "(", Nil, Location(1, 1)),
            Token(LeftParen, "(", Nil, Location(2, 1)),
            Token(Eof, "", Nil, Location(2, 1))];
  }
}
