/**
  The lexical analyzer object: an immutable source text, a cursor into it
  and the list of tokens found so far. NextToken runs the automaton one
  character at a time with one character of lookahead and pushback; it is
  proved to yield exactly what the reference description Scanner.Lex says.
*/
module Lexer {
  import opened Wrappers
  import opened CharClass
  import opened Tables
  import opened Scanner

  /** States of the automaton, with the numbers `index.py` gives them. */
  datatype State =
    | Start      // q0
    | Integer    // q1: digits
    | DotSeen    // q2: decimal point read, a digit must follow
    | Fraction   // q3: decimal digits
    | Word       // q4: letters and digits
    | Slash      // q17: '/' read
    | Greater    // q19: '>' read
    | Less       // q20: '<' read
    | Equals     // q21: '=' read
    | Bang       // q22: '!' read
    | Pipe       // q23: '|' read
    | Amp        // q24: '&' read

  /** What the rest of the current call yields when the automaton is in state
      with the given lexeme and the cursor at k, by the reference description.
      The lexeme matters only in q0 (a word may follow) and q4. */
  ghost function Pending(code: string, k: nat, state: State, lexeme: string): (r: Step)
    requires k <= |code|
  {
    match state
    case Start => Lex(code, k, lexeme)
    case Integer => IntegerFrom(code, k)
    case DotSeen => AfterDot(code, k)
    case Fraction => Step(Some("NUM_FLOAT"), RunEnd(code, k, Digits))
    case Word => WordFrom(code, k, lexeme)
    case Slash =>
      if Follows(code, k, '/') then Lex(code, LineEnd(code, k + 1), "") else Step(Some("DIV"), k)
    case Greater => Comparison(code, k, "GT", "GEQ")
    case Less => Comparison(code, k, "LT", "LEQ")
    case Equals => Comparison(code, k, "Atribuicao", "EQ")
    case Bang => Comparison(code, k, "NEG", "DIF")
    case Pipe => Doubled(code, k, '|', "OR")
    case Amp => Doubled(code, k, '&', "AND")
  }

  class LexicalAnalyzer {
    const code: string
    var cursor: nat
    var tokens: seq<string>

    /** The cursor never leaves the text: 0 <= cursor <= |code|. */
    ghost predicate Valid()
      reads this
    {
      cursor <= |code|
    }

    constructor (source: string)
      ensures Valid()
      ensures code == source && cursor == 0 && tokens == []
    {
      code := source;
      cursor := 0;
      tokens := [];
    }

    /** The character under the cursor, or None at the end of input; the cursor does not move. */
    method Peek() returns (c: Option<char>)
      ensures cursor < |code| ==> c == Some(code[cursor])
      ensures cursor >= |code| ==> c == None
    {
      if cursor < |code| {
        return Some(code[cursor]);
      }
      return None;
    }

    /** Reads the character under the cursor and advances past it; at the end
        of input returns None and leaves the cursor where it is. */
    method Consume() returns (c: Option<char>)
      modifies this`cursor
      ensures old(cursor) < |code| ==> c == Some(code[old(cursor)]) && cursor == old(cursor) + 1
      ensures old(cursor) >= |code| ==> c == None && cursor == old(cursor)
      ensures old(Valid()) ==> Valid()
    {
      c := Peek();
      if c.Some? {
        cursor := cursor + 1;
      }
    }

    /** Moves the cursor back by one, unless it is already at the start. */
    method PushBack()
      modifies this`cursor
      ensures cursor == if old(cursor) > 0 then old(cursor) - 1 else old(cursor)
      ensures old(Valid()) ==> Valid()
    {
      if cursor > 0 {
        cursor := cursor - 1;
      }
    }

    /** Runs the tokenizer to the end of input, appending every token found to
        the list and passing over every call that yields none. */
    method Analyze() returns (found: seq<string>)
      requires Valid()
      modifies this`cursor, this`tokens
      ensures Valid() && cursor == |code|
      ensures tokens == old(tokens) + Tokens(code, old(cursor))
      ensures found == tokens
    {
      while cursor < |code|
        invariant Valid()
        invariant old(tokens) + Tokens(code, old(cursor)) == tokens + Tokens(code, cursor)
        decreases |code| - cursor
      {
        ghost var before, listed := cursor, tokens;
        var token := NextToken();
        ghost var emitted := if token.Some? then [token.value] else [];
        if token.Some? {
          tokens := tokens + [token.value];
        }
        assert tokens == listed + emitted;
      }
      found := tokens;
    }

    /** c is what Consume returned with the cursor at k: the character at k,
        with the cursor now past it, or None at the end of input. */
    ghost predicate JustRead(k: nat, c: Option<char>)
      reads this
    {
      (k < |code| && c == Some(code[k]) && cursor == k + 1) || (k == |code| && c == None && cursor == k)
    }

    /** A state handler has dealt with what was read at k: either the call is
        over, yielding token with the cursor where it now is, or the automaton
        goes on in next with lexeme' and still owes the same outcome. */
    ghost predicate Handled(k: nat, state: State, lexeme: string,
                            next: State, lexeme': string, done: bool, token: Option<string>)
      reads this
      requires k <= |code| && Valid()
    {
      if done then Step(token, cursor) == Pending(code, k, state, lexeme)
      else k < cursor && Pending(code, cursor, next, lexeme') == Pending(code, k, state, lexeme)
    }

    /** One call of the automaton: skips whitespace and line comments and
        yields the next token, or None at the end of input or on a lexical
        error, leaving the cursor right after what the token used. */
    method NextToken() returns (token: Option<string>)
      requires Valid()
      modifies this`cursor
      ensures Valid()
      ensures Step(token, cursor) == Lex(code, old(cursor), "")
      ensures old(cursor) < |code| ==> old(cursor) < cursor
      ensures old(cursor) < |code| ==>
        Tokens(code, old(cursor)) == (if token.Some? then [token.value] else []) + Tokens(code, cursor)
    {
      ghost var goal := Lex(code, cursor, "");
      var state := Start;
      var lexeme := "";
      while true
        invariant Valid()
        invariant goal == Pending(code, cursor, state, lexeme)
        decreases |code| - cursor
      {
        ghost var k := cursor;
        var c := Consume();
        if c.None? && state == Start {
          return None;
        }
        var done;
        if state == Start {
          state, lexeme, done, token := OnStart(c.value, lexeme, k);
        } else if state == Integer || state == DotSeen || state == Fraction {
          state, lexeme, done, token := OnNumber(state, c, lexeme, k);
        } else if state == Word {
          state, lexeme, done, token := OnWord(c, lexeme, k);
        } else if state == Slash {
          state, lexeme, done, token := OnSlash(c, k);
        } else {
          state, lexeme, done, token := OnOperator(state, c, k);
        }
        if done {
          return;
        }
      }
    }

    /** State q0 after reading a character: whitespace is passed over, '"' is
        kept in the lexeme without a change of state, a character of the
        single-character table is a token at once, and a character no
        transition accepts is an error. */
    method OnStart(ch: char, lexeme: string, ghost k: nat)
      returns (next: State, lexeme': string, done: bool, token: Option<string>)
      requires Valid() && JustRead(k, Some(ch))
      ensures Handled(k, Start, lexeme, next, lexeme', done, token)
    {
      next, lexeme', done, token := Start, lexeme, false, None;
      if IsSpace(ch) {
        return;
      }
      lexeme' := lexeme + [ch];
      if IsDigit(ch) {
        next := Integer;
      } else if IsAlpha(ch) {
        next := Word;
      } else if ch == '.' {
        next := DotSeen;
      } else if ch == '"' {
      } else if ch == '>' {
        next := Greater;
      } else if ch == '<' {
        next := Less;
      } else if ch == '=' {
        next := Equals;
      } else if ch == '!' {
        next := Bang;
      } else if ch == '&' {
        next := Amp;
      } else if ch == '|' {
        next := Pipe;
      } else if ch == '/' {
        next := Slash;
      } else if ch in SimpleTokens {
        done, token := true, Some(SimpleTokens[ch]);
      } else {
        done := true;
      }
    }

    /** States q1 (digits), q2 (decimal point read) and q3 (decimal digits). */
    method OnNumber(state: State, c: Option<char>, lexeme: string, ghost k: nat)
      returns (next: State, lexeme': string, done: bool, token: Option<string>)
      requires Valid() && JustRead(k, c)
      requires state == Integer || state == DotSeen || state == Fraction
      modifies this`cursor
      ensures Valid() && Handled(k, state, lexeme, next, lexeme', done, token)
    {
      next, lexeme', done, token := state, lexeme, false, None;
      if state == Integer {
        if c.Some? && IsDigit(c.value) {
          lexeme' := lexeme + [c.value];
        } else if c == Some('.') {
          lexeme' := lexeme + [c.value];
          next := DotSeen;
        } else {
          if c.Some? { PushBack(); }
          done, token := true, Some("NUM_INT");
        }
      } else if state == DotSeen {
        if c.Some? && IsDigit(c.value) {
          lexeme' := lexeme + [c.value];
          next := Fraction;
        } else {
          done := true;
        }
      } else {
        if c.Some? && IsDigit(c.value) {
          lexeme' := lexeme + [c.value];
        } else {
          if c.Some? { PushBack(); }
          done, token := true, Some("NUM_FLOAT");
        }
      }
    }

    /** State q4: letters and digits extend the word; anything else ends it,
        and the word is classified. */
    method OnWord(c: Option<char>, lexeme: string, ghost k: nat)
      returns (next: State, lexeme': string, done: bool, token: Option<string>)
      requires Valid() && JustRead(k, c)
      modifies this`cursor
      ensures Valid() && Handled(k, Word, lexeme, next, lexeme', done, token)
    {
      next, lexeme', done, token := Word, lexeme, false, None;
      ghost var j := RunEnd(code, k, Alnums);
      if c.Some? && IsAlnum(c.value) {
        assert j == RunEnd(code, cursor, Alnums);
        assert lexeme + [c.value] + code[cursor..j] == lexeme + code[k..j];
        lexeme' := lexeme + [c.value];
      } else {
        assert j == k && lexeme + code[k..j] == lexeme;
        if c.Some? { PushBack(); }
        done, token := true, Some(WordKind(lexeme));
      }
    }

    /** State q17: a second '/' starts a line comment, which is skipped before
        the automaton starts afresh in q0 with an empty lexeme; anything else
        makes '/' the division operator. */
    method OnSlash(c: Option<char>, ghost k: nat)
      returns (next: State, lexeme': string, done: bool, token: Option<string>)
      requires Valid() && JustRead(k, c)
      modifies this`cursor
      ensures Valid() && Handled(k, Slash, "", next, lexeme', done, token)
    {
      next, lexeme', done, token := Slash, "", false, None;
      if c == Some('/') {
        SkipComment();
        next := Start;
      } else {
        if c.Some? { PushBack(); }
        done, token := true, Some("DIV");
      }
    }

    /** States q19..q22 ('>', '<', '=', '!'), where a following '=' makes the
        two-character operator and anything else is pushed back, and q23, q24
        ('|', '&'), where only the same character again is accepted. */
    method OnOperator(state: State, c: Option<char>, ghost k: nat)
      returns (next: State, lexeme': string, done: bool, token: Option<string>)
      requires Valid() && JustRead(k, c)
      requires state in {Greater, Less, Equals, Bang, Pipe, Amp}
      modifies this`cursor
      ensures Valid() && Handled(k, state, "", next, lexeme', done, token)
    {
      next, lexeme', done := state, "", true;
      if state == Greater {
        if c == Some('=') { return next, lexeme', done, Some("GEQ"); }
        if c.Some? { PushBack(); }
        token := Some("GT");
      } else if state == Less {
        if c == Some('=') { return next, lexeme', done, Some("LEQ"); }
        if c.Some? { PushBack(); }
        token := Some("LT");
      } else if state == Equals {
        if c == Some('=') { return next, lexeme', done, Some("EQ"); }
        if c.Some? { PushBack(); }
        token := Some("Atribuicao");
      } else if state == Bang {
        if c == Some('=') { return next, lexeme', done, Some("DIF"); }
        if c.Some? { PushBack(); }
        token := Some("NEG");
      } else if state == Amp {
        token := if c == Some('&') then Some("AND") else None;
      } else {
        token := if c == Some('|') then Some("OR") else None;
      }
    }

    /** The body of a line comment: consumes characters through the next line
        feed, or to the end of input. */
    method SkipComment()
      requires Valid()
      modifies this`cursor
      ensures Valid()
      ensures cursor == LineEnd(code, old(cursor))
    {
      ghost var stop := LineEnd(code, cursor);
      while cursor < |code|
        invariant Valid()
        invariant LineEnd(code, cursor) == stop
        decreases |code| - cursor
      {
        var d := Consume();
        if d == Some('\n') {
          break;
        }
      }
    }
  }
}
