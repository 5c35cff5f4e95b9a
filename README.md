# Lexical analyzer for a small C-like language, modelled in Dafny

`index.py` turns the text of a program in a small instructional language into
a flat list of token names. The class `AnalisadorLexico` keeps the whole text,
a cursor into it and the list of tokens found so far. Its method
`get_proximo_token` runs a hand-written deterministic automaton. The automaton
reads one character at a time, with one character of lookahead and a
one-step pushback of the cursor. Each call yields one token, or `None` for
both the end of input and a lexical error. The method `analisar` calls it
until the cursor reaches the end of the text. It keeps every token and drops
every `None`, so scanning carries on after an error.

The project has five modules:

- `Wrappers` (wrappers.dfy): `Option`.
- `CharClass` (char_class.dfy): the character classes the automaton tests.
- `Tables` (tables.dfy): the two constant tables `PALAVRAS_RESERVADAS` and
  `TOKENS_SIMPLES` as `ReservedWords` and `SimpleTokens`. Also the
  classification of a finished word, `WordKind`, and the closed set of
  token names the lexer can emit.
- `Scanner` (scanner.dfy): a reference description of one call, `Lex`. It is
  written over maximal runs of the remaining input (the run of digits, the
  run of letters and digits, the rest of a line) rather than character by
  character. `Tokens` gives the token list of a whole run. The lemmas here
  state the behaviour the code promises.
- `Lexer` (lexer.dfy): the class `LexicalAnalyzer` with the fields `code`,
  `cursor` and `tokens`.
  - `Peek`, `Consume` and `PushBack` are the cursor primitives.
  - `NextToken` is the automaton, a `while true` loop over an explicit state
    and an accumulated lexeme. It is proved to return exactly what
    `Scanner.Lex` describes.
  - `Analyze` is the driving loop. It is proved to append exactly
    `Scanner.Tokens` to the list and to stop with the cursor at the end.

The automaton's states keep their meaning from the source: q0, q1–q4,
q17 and q19–q24. The body of the `while True` loop of `get_proximo_token` is
one long `if/elif` over the state. In the model each group of states has its
own handler method: `OnStart`, `OnNumber`, `OnWord`, `OnSlash` and
`OnOperator`. All handlers share one contract, `Handled`, and `NextToken`
keeps the loop, the state and the lexeme. The comment-skipping inner loop is
the method `SkipComment`.

Names and quirks follow `index.py`:

- The token names are the code's own, for example `BOLL_TYPE`, `CHAR_TYPE`,
  `Atribuicao` and `PVirgula`.
- A word that is neither reserved nor begins with `VAR` yields the message
  `Erro: Identificador inválido (deve iniciar com VAR)`. That message goes
  into the token list like any token.
- A `"` in q0 is kept in the lexeme and the state stays q0. It yields no
  token, but a word read later in the same call is classified together with
  that held `"` and so is never reserved and never a variable
  (`QuoteSpoilsWord`). A line comment in between empties the lexeme, and a
  word after it is classified on its own.
- The `'/'` entry of `TOKENS_SIMPLES` is never consulted, because `/` goes
  to q17 first. It is kept in the table as written.

`index.py` has no character literals, no remembered declaration type that
turns `0`/`1` into boolean literals, no generic identifier kind and no typed
errors, and it does not stop at the first error. The model has none of these
either.

## Model

| member | source | states |
|---|---|---|
| `Tables.WordKind` | index.py:198-217 | A finished word is classified by `PALAVRAS_RESERVADAS` first. Otherwise it is `VAR` exactly when it begins with "VAR". Otherwise it is the invalid-identifier message. |
| `Tables.WordKindIsKnown` | index.py:10-18 | Every classification of a word is one of the lexer's token names. |
| `Scanner.RunEnd` | index.py:156-193 | The run of digits (q1, q3) or of letters and digits (q4) is maximal: every character before its end is in the class, and the character at its end, if any, is not. |
| `Scanner.LineEnd` | index.py:254-259 | The comment skip stops just after the first line feed, or at the end of input when there is none. No line feed comes before it. |
| `Scanner.AfterDot` | index.py:168-187 | After a decimal point, a float exists exactly when a digit follows. The float ends at the end of the maximal digit run after the point. With no digit, the call yields None and the cursor moves past that one character, if there is one. |
| `Scanner.IntegerFrom` | index.py:156-187 | After the first digit, the result is NUM_INT exactly when the cursor stops at the end of a digit run that is followed by neither a digit nor `.`. Otherwise the number is a float or a malformed float. |
| `Scanner.WordFrom` | index.py:189-217 | A word runs over letters and digits and stops at the first other character or at the end. Its token is the classification of the held lexeme plus that run. |
| `Scanner.Comparison` | index.py:219-250 | After `>`, `<`, `=` or `!`, a following `=` is consumed exactly when present. The two-character operator is yielded exactly when it was consumed, and the one-character operator otherwise. |
| `Scanner.Doubled` | index.py:267-282 | After `&` or a vertical bar, the next character is always consumed, if there is one. The operator is yielded exactly when it is the same character again, and None otherwise. |
| `Scanner.Lex` | index.py:89-282 | One call stops within the text. When it starts before the end of the text, it stops strictly later. |
| `Scanner.Tokens` | index.py:78-87 | A run from any position yields at most as many tokens as characters remain. |
| `Scanner.BlankRest` | index.py:102-122 | When only whitespace is left, the call yields None with the cursor at the end, and the run yields no tokens. |
| `Scanner.BlankInput` | index.py:82-87 | Whitespace-only input yields an empty token list. |
| `Scanner.IntegerLiteral` | index.py:156-166 | A maximal digit run not followed by `.` is one NUM_INT, with the cursor just after the last digit. |
| `Scanner.FloatLiteral` | index.py:126-187 | `digits* '.' digit+` is one NUM_FLOAT, with the cursor just after the last decimal digit. A leading `.` is accepted too. |
| `Scanner.MalformedFloat` | index.py:156-178 | A `.` not followed by a digit yields None, and the following character, if any, is consumed rather than pushed back. |
| `Scanner.WordToken` | index.py:189-217 | A letter and its maximal alphanumeric run form one word, classified together with the lexeme already held: reserved word, VAR, or the message. |
| `Scanner.LexKinds` | index.py:89-282 | A call yields only names from the tables, the automaton's own names, or the invalid-identifier message. |
| `Scanner.TokensKinds` | index.py:78-87 | Every entry of the token list of a run is one of the lexer's token names. |
| `Scanner.IfKeyword` | index.py:16-17 | Both "If" and "if" yield IF. |
| `Scanner.QuoteSpoilsWord` | index.py:134-136 | A word classified together with a held lexeme that starts with `"` yields the invalid-identifier message. A line comment between the `"` and the word empties the lexeme, so this holds only without one. |
| `Scanner.ComparisonOperators` | index.py:219-250 | `>=`, `<=`, `==` and `!=` give GEQ, LEQ, EQ and DIF and consume both characters. A lone `>`, `<`, `=` or `!` gives GT, LT, Atribuicao or NEG, with the cursor just after it. |
| `Scanner.LogicalOperators` | index.py:267-282 | `&&` gives AND and two vertical bars give OR. A single `&` or vertical bar gives None and consumes the next character, if any. |
| `Scanner.SlashOrComment` | index.py:252-265 | `//` skips through the next line feed, and the same call restarts in q0 with an empty lexeme. `/` followed by anything else gives DIV, with the cursor just after it. |
| `Scanner.SingleCharacters` | index.py:143-154 | A character of `TOKENS_SIMPLES` other than `/` is its token at once. A character no transition accepts gives None, with the cursor past it. |
| `Scanner.LexShift` | index.py:89-282 | One call looks only at the text from where it starts. Put any text in front, and the call yields the same token, with the cursor moved by the length of that text. |
| `Scanner.TokensShift` | index.py:78-87 | The token list of a run from a position depends only on the text from that position on. |
| `Scanner.ErrorsDoNotHalt` | index.py:82-85 | A character no transition accepts does not stop the run. It is dropped, and the rest of the text yields exactly the tokens it yields on its own. |
| `Lexer.LexicalAnalyzer.constructor` | index.py:43-51 | A new analyzer holds the text, has its cursor at 0 and has an empty token list. |
| `Lexer.LexicalAnalyzer.Peek` | index.py:53-60 | Returns the character under the cursor, or None at the end, without moving the cursor. |
| `Lexer.LexicalAnalyzer.Consume` | index.py:62-69 | Advances the cursor by exactly one when a character exists, and returns that character. At the end it returns None and leaves the cursor unchanged. Keeps the cursor within the text. |
| `Lexer.LexicalAnalyzer.PushBack` | index.py:71-76 | Moves the cursor back by one only when it is positive. Keeps the cursor within the text. |
| `Lexer.LexicalAnalyzer.Analyze` | index.py:78-87 | Stops with the cursor at the end of the text. Appends exactly `Tokens` from the old cursor to the list, and returns the list. |
| `Lexer.LexicalAnalyzer.NextToken` | index.py:89-282 | Yields exactly the token and final cursor of `Lex` from the old cursor, and moves the cursor strictly forward when it is not at the end. Its token extends the token list of the run consistently with `Tokens`. |
| `Lexer.LexicalAnalyzer.OnStart` | index.py:115-154 | The q0 transitions preserve the outcome `Lex` owes. Whitespace is skipped, `"` stays in q0, the table characters finish at once, and others are errors. |
| `Lexer.LexicalAnalyzer.OnNumber` | index.py:156-187 | The q1, q2 and q3 transitions preserve the owed outcome. The only pushback is of the character that ends a number. |
| `Lexer.LexicalAnalyzer.OnWord` | index.py:189-217 | The q4 transitions preserve the owed outcome. The character that ends a word is pushed back, and the word is classified. |
| `Lexer.LexicalAnalyzer.OnSlash` | index.py:252-265 | The q17 transitions preserve the owed outcome. A comment is skipped and the call goes on in q0. |
| `Lexer.LexicalAnalyzer.OnOperator` | index.py:219-282 | The q19–q24 transitions preserve the owed outcome. |
| `Lexer.LexicalAnalyzer.SkipComment` | index.py:257-259 | Consumes characters exactly up to `LineEnd` of the old cursor. |

## Left out

- `main` (index.py:290-327): argument parsing, reading and writing files, naming the output file and printing results. It is input/output around the core.
- The `print` calls in the error branches (index.py:153, 177, 273, 281): console output only. Each of those branches is modelled as returning `None`.
- Unicode character classes: `isspace`, `isdigit`, `isalpha` and `isalnum` are modelled by their ASCII members only. Whitespace is tab, line feed, vertical tab, form feed, carriage return, 0x1C–0x1F and space. A non-ASCII letter, digit or space is therefore an invalid character in the model.
- `tamanho` (index.py:49) is not a separate field: it is always the length of `code`, which never changes.
- `analisar` returns the analyzer's own list object. The model returns a value equal to the `tokens` field, so aliasing between the two is not modelled.
- `analisar` keeps a token when it is truthy (index.py:84). Every token the automaton returns is a non-empty string, so the model keeps every `Some` and drops every `None`.
