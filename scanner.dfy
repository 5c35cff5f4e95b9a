/**
  A reference description of what one call of the tokenizer yields, written
  over maximal runs of the remaining input rather than character by
  character, and the token list of a whole run.
*/
module Scanner {
  import opened Wrappers
  import opened CharClass
  import opened Tables

  /** What one call yields: a token (None for end of input and for every
      lexical error alike) and the position where the cursor stops. */
  datatype Step = Step(token: Option<string>, next: nat)

  /** The character at k exists and is c. */
  predicate Follows(code: string, k: nat, c: char) {
    k < |code| && code[k] == c
  }

  /** Position after the character at k is consumed; at end of input nothing moves. */
  function PastOne(code: string, k: nat): (j: nat)
    requires k <= |code|
    ensures j <= |code|
    ensures k < |code| ==> j == k + 1
    ensures k == |code| ==> j == k
  {
    if k < |code| then k + 1 else k
  }

  /** End of the maximal run of characters in the class cls starting at k. */
  function RunEnd(code: string, k: nat, cls: RunClass): (j: nat)
    requires k <= |code|
    ensures k <= j <= |code|
    ensures forall i :: k <= i < j ==> InRun(cls, code[i])
    ensures j == |code| || !InRun(cls, code[j])
    decreases |code| - k
  {
    if k < |code| && InRun(cls, code[k]) then RunEnd(code, k + 1, cls) else k
  }

  /** Position just after the first line feed at or after k, or the end of input. */
  function LineEnd(code: string, k: nat): (j: nat)
    requires k <= |code|
    ensures k <= j <= |code|
    ensures forall i :: k <= i < j - 1 ==> code[i] != '\n'
    ensures (k < j && code[j - 1] == '\n') || (j == |code| && forall i :: k <= i < j ==> code[i] != '\n')
    decreases |code| - k
  {
    if k == |code| then k
    else if code[k] == '\n' then k + 1
    else LineEnd(code, k + 1)
  }

  /** After a decimal point: at least one digit makes a float that runs to the
      end of the digits; anything else is an error that swallows that character. */
  function AfterDot(code: string, k: nat): (r: Step)
    requires k <= |code|
    ensures k <= r.next <= |code|
    ensures r.token.Some? <==> k < |code| && IsDigit(code[k])
    ensures r.token.Some? ==> r.token.value == "NUM_FLOAT"
    ensures r.token.Some? ==>
      k < r.next && (forall i :: k <= i < r.next ==> IsDigit(code[i])) &&
      (r.next == |code| || !IsDigit(code[r.next]))
    ensures r.token.None? ==> r.next == PastOne(code, k)
  {
    if k < |code| && IsDigit(code[k]) then Step(Some("NUM_FLOAT"), RunEnd(code, k + 1, Digits))
    else Step(None, PastOne(code, k))
  }

  /** After the first digit of a number: the rest of the digits, then either a
      decimal point (a float follows) or an integer that ends with the digits. */
  function IntegerFrom(code: string, k: nat): (r: Step)
    requires k <= |code|
    ensures k <= r.next <= |code|
    ensures r.token.Some? ==> r.token.value in {"NUM_INT", "NUM_FLOAT"}
    ensures r.token == Some("NUM_INT") <==>
      (forall i :: k <= i < r.next ==> IsDigit(code[i])) &&
      (r.next == |code| || (!IsDigit(code[r.next]) && code[r.next] != '.'))
  {
    var j := RunEnd(code, k, Digits);
    if Follows(code, j, '.') then AfterDot(code, j + 1) else Step(Some("NUM_INT"), j)
  }

  /** After the start of a word whose characters so far are lexeme: the rest of
      the letters and digits, classified as a whole. */
  function WordFrom(code: string, k: nat, lexeme: string): (r: Step)
    requires k <= |code|
    ensures k <= r.next <= |code|
    ensures forall i :: k <= i < r.next ==> IsAlnum(code[i])
    ensures r.next == |code| || !IsAlnum(code[r.next])
    ensures r.token == Some(WordKind(lexeme + code[k..r.next]))
  {
    var j := RunEnd(code, k, Alnums);
    Step(Some(WordKind(lexeme + code[k..j])), j)
  }

  /** After '>', '<', '=' or '!': a following '=' makes the two-character
      operator; otherwise the one-character operator, nothing more consumed. */
  function Comparison(code: string, k: nat, single: string, double: string): (r: Step)
    requires k <= |code|
    ensures r.next == k || r.next == k + 1
    ensures r.next == k + 1 <==> Follows(code, k, '=')
    ensures r.token == Some(if r.next == k then single else double)
  {
    if Follows(code, k, '=') then Step(Some(double), k + 1) else Step(Some(single), k)
  }

  /** After '&' or '|': the same character again makes the operator; anything
      else is an error that swallows that character. */
  function Doubled(code: string, k: nat, c: char, kind: string): (r: Step)
    requires k <= |code|
    ensures r.next == PastOne(code, k)
    ensures r.token.Some? <==> Follows(code, k, c)
    ensures r.token.Some? ==> r.token.value == kind
  {
    if Follows(code, k, c) then Step(Some(kind), k + 1) else Step(None, PastOne(code, k))
  }

  /** The outcome of one tokenizer call that starts in the initial state at pos
      with lexeme already accumulated (only '"' characters accumulate there).
      Whitespace and '"' are passed over, a line comment is skipped and the
      search starts afresh with an empty lexeme. */
  function Lex(code: string, pos: nat, lexeme: string): (r: Step)
    requires pos <= |code|
    ensures pos <= r.next <= |code|
    ensures pos < |code| ==> pos < r.next
    decreases |code| - pos
  {
    if pos == |code| then Step(None, pos)
    else
      var c := code[pos];
      if IsSpace(c) then Lex(code, pos + 1, lexeme)
      else if IsDigit(c) then IntegerFrom(code, pos + 1)
      else if IsAlpha(c) then WordFrom(code, pos + 1, lexeme + [c])
      else if c == '.' then AfterDot(code, pos + 1)
      else if c == '"' then Lex(code, pos + 1, lexeme + [c])
      else if c == '>' then Comparison(code, pos + 1, "GT", "GEQ")
      else if c == '<' then Comparison(code, pos + 1, "LT", "LEQ")
      else if c == '=' then Comparison(code, pos + 1, "Atribuicao", "EQ")
      else if c == '!' then Comparison(code, pos + 1, "NEG", "DIF")
      else if c == '&' then Doubled(code, pos + 1, '&', "AND")
      else if c == '|' then Doubled(code, pos + 1, '|', "OR")
      else if c == '/' then
        if Follows(code, pos + 1, '/') then Lex(code, LineEnd(code, pos + 2), "")
        else Step(Some("DIV"), pos + 1)
      else if c in SimpleTokens then Step(Some(SimpleTokens[c]), pos + 1)
      else Step(None, pos + 1)
  }

  /** The token list of a run from pos: the tokens of successive calls, in
      order, with every None dropped and scanning carried on after it. */
  function Tokens(code: string, pos: nat): (ts: seq<string>)
    requires pos <= |code|
    ensures |ts| <= |code| - pos
    decreases |code| - pos
  {
    if pos == |code| then []
    else
      var step := Lex(code, pos, "");
      (if step.token.Some? then [step.token.value] else []) + Tokens(code, step.next)
  }

  // ---------------------------------------------------------------------
  // Properties of the reference description
  // ---------------------------------------------------------------------

  /** Input that is whitespace from pos on yields no token, and the cursor
      ends at the end of input. */
  lemma {:induction false} BlankRest(code: string, pos: nat, lexeme: string)
    requires pos <= |code|
    requires forall i :: pos <= i < |code| ==> IsSpace(code[i])
    ensures Lex(code, pos, lexeme) == Step(None, |code|)
    ensures Tokens(code, pos) == []
    decreases |code| - pos
  {
    if pos < |code| {
      BlankRest(code, pos + 1, lexeme);
      BlankRest(code, pos + 1, "");
    }
  }

  /** Whitespace-only input yields an empty token list. */
  lemma {:induction false} BlankInput(code: string)
    requires forall i :: 0 <= i < |code| ==> IsSpace(code[i])
    ensures Tokens(code, 0) == []
  {
    BlankRest(code, 0, "");
  }

  /** A maximal run of digits not followed by '.' is one NUM_INT; the cursor
      stops right after the last digit. */
  lemma IntegerLiteral(code: string, pos: nat, lexeme: string)
    requires pos < |code| && IsDigit(code[pos])
    ensures var j := RunEnd(code, pos, Digits);
      pos < j &&
      (!Follows(code, j, '.') ==> Lex(code, pos, lexeme) == Step(Some("NUM_INT"), j))
  {
  }

  /** digits* '.' digit+ is one NUM_FLOAT; the cursor stops right after the
      last decimal digit. A leading '.' is accepted as well. */
  lemma FloatLiteral(code: string, pos: nat, dot: nat, lexeme: string)
    requires pos <= dot < |code| - 1
    requires forall i :: pos <= i < dot ==> IsDigit(code[i])
    requires code[dot] == '.' && IsDigit(code[dot + 1])
    ensures Lex(code, pos, lexeme) == Step(Some("NUM_FLOAT"), RunEnd(code, dot + 2, Digits))
  {
  }

  /** A decimal point not followed by a digit is an error; the character after
      it, if any, is consumed rather than pushed back. */
  lemma MalformedFloat(code: string, pos: nat, dot: nat, lexeme: string)
    requires pos <= dot < |code|
    requires forall i :: pos <= i < dot ==> IsDigit(code[i])
    requires code[dot] == '.' && !(dot + 1 < |code| && IsDigit(code[dot + 1]))
    ensures Lex(code, pos, lexeme) == Step(None, if dot + 1 < |code| then dot + 2 else dot + 1)
  {
  }

  /** A word is the maximal run of letters and digits after a letter, and is
      classified together with the lexeme accumulated before it. */
  lemma WordToken(code: string, pos: nat, lexeme: string)
    requires pos < |code| && IsAlpha(code[pos])
    ensures var j := RunEnd(code, pos, Alnums);
      var w := lexeme + code[pos..j];
      pos < j &&
      Lex(code, pos, lexeme) == Step(Some(WordKind(w)), j) &&
      (w in ReservedWords ==> Lex(code, pos, lexeme).token == Some(ReservedWords[w])) &&
      (w !in ReservedWords && HasVarPrefix(w) ==> Lex(code, pos, lexeme).token == Some("VAR")) &&
      (w !in ReservedWords && !HasVarPrefix(w) ==> Lex(code, pos, lexeme).token == Some(InvalidIdentifier))
  {
    var j := RunEnd(code, pos, Alnums);
    assert lexeme + [code[pos]] + code[pos + 1..j] == lexeme + code[pos..j];
  }

  /** A call that starts with a letter yields only names of the closed set of
      token kinds. */
  lemma WordKinds(code: string, pos: nat, lexeme: string)
    requires pos < |code| && IsAlpha(code[pos])
    ensures Lex(code, pos, lexeme).token.Some? ==> Lex(code, pos, lexeme).token.value in TokenKinds
  {
    var w := lexeme + [code[pos]];
    assert Lex(code, pos, lexeme) == WordFrom(code, pos + 1, w);
    WordKindIsKnown(w + code[pos + 1..RunEnd(code, pos + 1, Alnums)]);
  }

  /** A call that starts with a digit or '.' yields only NUM_INT or NUM_FLOAT. */
  lemma NumberKinds(code: string, pos: nat, lexeme: string)
    requires pos < |code| && (IsDigit(code[pos]) || code[pos] == '.')
    ensures Lex(code, pos, lexeme).token.Some? ==> Lex(code, pos, lexeme).token.value in TokenKinds
  {
    assert Lex(code, pos, lexeme).token.Some? ==> Lex(code, pos, lexeme).token.value in {"NUM_INT", "NUM_FLOAT"};
  }

  /** A call that starts with an operator character yields only the names of
      the operators. */
  lemma OperatorKinds(code: string, pos: nat, lexeme: string)
    requires pos < |code| && code[pos] in "><=!&|/"
    requires !(code[pos] == '/' && Follows(code, pos + 1, '/'))
    ensures Lex(code, pos, lexeme).token.Some? ==> Lex(code, pos, lexeme).token.value in TokenKinds
  {
    if code[pos] in "&|" {
      LogicalOperators(code, pos, lexeme);
    } else if code[pos] == '/' {
      SlashOrComment(code, pos, lexeme);
    } else {
      ComparisonOperators(code, pos, lexeme);
    }
  }

  /** A call that starts with any other character yields only an entry of the
      single-character table, or nothing. */
  lemma TableKinds(code: string, pos: nat, lexeme: string)
    requires pos < |code| && !IsSpace(code[pos]) && !IsAlnum(code[pos]) && code[pos] !in ".\"><=!&|/"
    ensures Lex(code, pos, lexeme).token.Some? ==> Lex(code, pos, lexeme).token.value in TokenKinds
  {
    SingleCharacters(code, pos, lexeme);
    if code[pos] in SimpleTokens {
      SimpleTokenIsKnown(code[pos]);
    }
  }

  /** Passing over whitespace or '"' leaves a call that still yields only
      names of the closed set of token kinds. */
  lemma {:induction false} PassOverKinds(code: string, pos: nat, lexeme: string)
    requires pos < |code| && (IsSpace(code[pos]) || code[pos] == '"')
    ensures Lex(code, pos, lexeme).token.Some? ==> Lex(code, pos, lexeme).token.value in TokenKinds
    decreases |code| - pos, 0
  {
    var held := if IsSpace(code[pos]) then lexeme else lexeme + [code[pos]];
    assert Lex(code, pos, lexeme) == Lex(code, pos + 1, held);
    LexKinds(code, pos + 1, held);
  }

  /** Skipping a comment leaves a call that still yields only names of the
      closed set of token kinds. */
  lemma {:induction false} CommentKinds(code: string, pos: nat, lexeme: string)
    requires pos < |code| && code[pos] == '/' && Follows(code, pos + 1, '/')
    ensures Lex(code, pos, lexeme).token.Some? ==> Lex(code, pos, lexeme).token.value in TokenKinds
    decreases |code| - pos, 0
  {
    assert Lex(code, pos, lexeme) == Lex(code, LineEnd(code, pos + 2), "");
    LexKinds(code, LineEnd(code, pos + 2), "");
  }

  /** One call yields nothing but names of the closed set of token kinds. */
  lemma {:induction false} LexKinds(code: string, pos: nat, lexeme: string)
    requires pos <= |code|
    ensures Lex(code, pos, lexeme).token.Some? ==> Lex(code, pos, lexeme).token.value in TokenKinds
    decreases |code| - pos, 1
  {
    if pos < |code| {
      var c := code[pos];
      if IsSpace(c) || c == '"' {
        PassOverKinds(code, pos, lexeme);
      } else if c == '/' && Follows(code, pos + 1, '/') {
        CommentKinds(code, pos, lexeme);
      } else if IsAlpha(c) {
        WordKinds(code, pos, lexeme);
      } else if IsDigit(c) || c == '.' {
        NumberKinds(code, pos, lexeme);
      } else if c in "><=!&|/" {
        OperatorKinds(code, pos, lexeme);
      } else {
        TableKinds(code, pos, lexeme);
      }
    }
  }

  /** A whole run yields nothing but names of the closed set of token kinds. */
  lemma {:induction false} TokensKinds(code: string, pos: nat)
    requires pos <= |code|
    ensures forall t :: t in Tokens(code, pos) ==> t in TokenKinds
    decreases |code| - pos
  {
    if pos < |code| {
      LexKinds(code, pos, "");
      TokensKinds(code, Lex(code, pos, "").next);
    }
  }

  /** Both spellings of the conditional keyword yield IF. */
  lemma IfKeyword()
    ensures WordKind("If") == "IF" && WordKind("if") == "IF"
  {
  }

  /** A '"' read earlier in the same call spoils every following word: the
      word is neither reserved nor a variable. */
  lemma QuoteSpoilsWord(code: string, pos: nat, lexeme: string)
    requires pos < |code| && IsAlpha(code[pos])
    requires |lexeme| > 0 && lexeme[0] == '"'
    ensures Lex(code, pos, lexeme).token == Some(InvalidIdentifier)
  {
    WordToken(code, pos, lexeme);
    var w := lexeme + code[pos..RunEnd(code, pos, Alnums)];
    assert w[0] == '"';
    assert w !in ReservedWords by {
      forall k | k in ReservedWords ensures k[0] != '"' { }
    }
    assert !HasVarPrefix(w) by {
      if |w| >= 3 { assert w[..3][0] == '"'; }
    }
  }

  /** '>', '<', '=' and '!' followed by '=' make GEQ, LEQ, EQ and DIF and
      consume both characters; otherwise GT, LT, Atribuicao and NEG, with the
      cursor right after the operator. */
  lemma ComparisonOperators(code: string, pos: nat, lexeme: string)
    requires pos < |code|
    ensures var eq := Follows(code, pos + 1, '=');
      var next := if eq then pos + 2 else pos + 1;
      (code[pos] == '>' ==> Lex(code, pos, lexeme) == Step(Some(if eq then "GEQ" else "GT"), next)) &&
      (code[pos] == '<' ==> Lex(code, pos, lexeme) == Step(Some(if eq then "LEQ" else "LT"), next)) &&
      (code[pos] == '=' ==> Lex(code, pos, lexeme) == Step(Some(if eq then "EQ" else "Atribuicao"), next)) &&
      (code[pos] == '!' ==> Lex(code, pos, lexeme) == Step(Some(if eq then "DIF" else "NEG"), next))
  {
  }

  /** "&&" makes AND and "||" makes OR; a single '&' or '|' is an error that
      also consumes the character after it, if any. */
  lemma LogicalOperators(code: string, pos: nat, lexeme: string)
    requires pos < |code| && code[pos] in {'&', '|'}
    ensures Follows(code, pos + 1, code[pos]) ==>
      Lex(code, pos, lexeme) == Step(Some(if code[pos] == '&' then "AND" else "OR"), pos + 2)
    ensures !Follows(code, pos + 1, code[pos]) ==>
      Lex(code, pos, lexeme) == Step(None, if pos + 1 < |code| then pos + 2 else pos + 1)
  {
  }

  /** "//" skips through the next line feed (or to the end of input) and the
      same call starts afresh there with an empty lexeme; '/' followed by
      anything else is DIV, with the cursor right after it. */
  lemma SlashOrComment(code: string, pos: nat, lexeme: string)
    requires pos < |code| && code[pos] == '/'
    ensures Follows(code, pos + 1, '/') ==> Lex(code, pos, lexeme) == Lex(code, LineEnd(code, pos + 2), "")
    ensures !Follows(code, pos + 1, '/') ==> Lex(code, pos, lexeme) == Step(Some("DIV"), pos + 1)
  {
  }

  /** Every entry of the single-character table except '/' is emitted at once
      as its mapped token; any character no transition accepts is an error
      that moves the cursor past it. */
  lemma SingleCharacters(code: string, pos: nat, lexeme: string)
    requires pos < |code|
    ensures code[pos] in SimpleTokens && code[pos] != '/' ==>
      Lex(code, pos, lexeme) == Step(Some(SimpleTokens[code[pos]]), pos + 1)
    ensures var c := code[pos];
      !IsSpace(c) && !IsAlnum(c) && c !in SimpleTokens && c !in ".\"><=!&|" ==>
      Lex(code, pos, lexeme) == Step(None, pos + 1)
  {
  }

  /** The same step moved n positions to the right. */
  function Shifted(step: Step, n: nat): (r: Step) {
    Step(step.token, step.next + n)
  }

  /** A run of a class ends at the same place whatever text precedes it. */
  lemma {:induction false} RunEndShift(p: string, s: string, k: nat, cls: RunClass)
    requires k <= |s|
    ensures RunEnd(p + s, |p| + k, cls) == |p| + RunEnd(s, k, cls)
    decreases |s| - k
  {
    if k < |s| {
      assert (p + s)[|p| + k] == s[k];
      if InRun(cls, s[k]) {
        RunEndShift(p, s, k + 1, cls);
      }
    }
  }

  /** A comment ends at the same place whatever text precedes it. */
  lemma {:induction false} LineEndShift(p: string, s: string, k: nat)
    requires k <= |s|
    ensures LineEnd(p + s, |p| + k) == |p| + LineEnd(s, k)
    decreases |s| - k
  {
    if k < |s| {
      assert (p + s)[|p| + k] == s[k];
      if s[k] != '\n' {
        LineEndShift(p, s, k + 1);
      }
    }
  }

  /** The state after a decimal point does not look at the text before the cursor. */
  lemma AfterDotShift(p: string, s: string, k: nat)
    requires k <= |s|
    ensures AfterDot(p + s, |p| + k) == Shifted(AfterDot(s, k), |p|)
  {
    if k < |s| {
      assert (p + s)[|p| + k] == s[k];
      RunEndShift(p, s, k + 1, Digits);
    }
  }

  /** The integer state does not look at the text before the cursor. */
  lemma IntegerFromShift(p: string, s: string, k: nat)
    requires k <= |s|
    ensures IntegerFrom(p + s, |p| + k) == Shifted(IntegerFrom(s, k), |p|)
  {
    var j := RunEnd(s, k, Digits);
    RunEndShift(p, s, k, Digits);
    if j < |s| {
      assert (p + s)[|p| + j] == s[j];
      AfterDotShift(p, s, j + 1);
    }
  }

  /** The word state does not look at the text before the cursor. */
  lemma WordFromShift(p: string, s: string, k: nat, lexeme: string)
    requires k <= |s|
    ensures WordFrom(p + s, |p| + k, lexeme) == Shifted(WordFrom(s, k, lexeme), |p|)
  {
    var j := RunEnd(s, k, Alnums);
    RunEndShift(p, s, k, Alnums);
    assert (p + s)[|p| + k..|p| + j] == s[k..j];
  }

  /** A call that starts with a digit or '.' does not look at the text
      before its start. */
  lemma NumberShift(p: string, s: string, k: nat, lexeme: string)
    requires k < |s| && (IsDigit(s[k]) || s[k] == '.')
    ensures Lex(p + s, |p| + k, lexeme) == Shifted(Lex(s, k, lexeme), |p|)
  {
    assert (p + s)[|p| + k] == s[k];
    if IsDigit(s[k]) {
      IntegerFromShift(p, s, k + 1);
    } else {
      AfterDotShift(p, s, k + 1);
    }
  }

  /** A call that starts with a letter does not look at the text before its start. */
  lemma WordShift(p: string, s: string, k: nat, lexeme: string)
    requires k < |s| && IsAlpha(s[k])
    ensures Lex(p + s, |p| + k, lexeme) == Shifted(Lex(s, k, lexeme), |p|)
  {
    assert (p + s)[|p| + k] == s[k];
    WordFromShift(p, s, k + 1, lexeme + [s[k]]);
  }

  /** A call that starts with an operator or any other single character does
      not look at the text before its start. */
  lemma OperatorShift(p: string, s: string, k: nat, lexeme: string)
    requires k < |s| && !IsSpace(s[k]) && !IsAlnum(s[k]) && s[k] !in ".\""
    requires !(s[k] == '/' && Follows(s, k + 1, '/'))
    ensures Lex(p + s, |p| + k, lexeme) == Shifted(Lex(s, k, lexeme), |p|)
  {
    assert (p + s)[|p| + k] == s[k];
    if k + 1 < |s| {
      assert (p + s)[|p| + k + 1] == s[k + 1];
    }
  }

  /** Passing over whitespace or '"' does not look at the text before the call. */
  lemma {:induction false} PassOverShift(p: string, s: string, k: nat, lexeme: string)
    requires k < |s| && (IsSpace(s[k]) || s[k] == '"')
    ensures Lex(p + s, |p| + k, lexeme) == Shifted(Lex(s, k, lexeme), |p|)
    decreases |s| - k, 0
  {
    assert (p + s)[|p| + k] == s[k];
    LexShift(p, s, k + 1, if IsSpace(s[k]) then lexeme else lexeme + [s[k]]);
  }

  /** Skipping a comment does not look at the text before the call. */
  lemma {:induction false} CommentShift(p: string, s: string, k: nat, lexeme: string)
    requires k < |s| && s[k] == '/' && Follows(s, k + 1, '/')
    ensures Lex(p + s, |p| + k, lexeme) == Shifted(Lex(s, k, lexeme), |p|)
    decreases |s| - k, 0
  {
    assert (p + s)[|p| + k] == s[k];
    assert (p + s)[|p| + k + 1] == s[k + 1];
    LineEndShift(p, s, k + 2);
    LexShift(p, s, LineEnd(s, k + 2), "");
  }

  /** One call depends only on the text from its start on: put any text in
      front and the call yields the same token, with the cursor moved along. */
  lemma {:induction false} LexShift(p: string, s: string, k: nat, lexeme: string)
    requires k <= |s|
    ensures Lex(p + s, |p| + k, lexeme) == Shifted(Lex(s, k, lexeme), |p|)
    decreases |s| - k, 1
  {
    if k == |s| {
    } else if IsSpace(s[k]) || s[k] == '"' {
      PassOverShift(p, s, k, lexeme);
    } else if s[k] == '/' && Follows(s, k + 1, '/') {
      CommentShift(p, s, k, lexeme);
    } else if IsDigit(s[k]) || s[k] == '.' {
      NumberShift(p, s, k, lexeme);
    } else if IsAlpha(s[k]) {
      WordShift(p, s, k, lexeme);
    } else {
      OperatorShift(p, s, k, lexeme);
    }
  }

  /** The token list from a position depends only on the text from there on. */
  lemma {:induction false} TokensShift(p: string, s: string, k: nat)
    requires k <= |s|
    ensures Tokens(p + s, |p| + k) == Tokens(s, k)
    decreases |s| - k
  {
    if k < |s| {
      LexShift(p, s, k, "");
      TokensShift(p, s, Lex(s, k, "").next);
    }
  }

  /** A character no transition accepts does not stop the run: it is dropped
      and the rest of the text yields exactly the tokens it yields alone. */
  lemma ErrorsDoNotHalt(c: char, s: string)
    requires !IsSpace(c) && !IsAlnum(c) && c !in SimpleTokens && c !in ".\"><=!&|"
    ensures Tokens([c] + s, 0) == Tokens(s, 0)
  {
    SingleCharacters([c] + s, 0, "");
    TokensShift([c], s, 0);
  }
}
