/** The two constant lookup tables of the lexer and the classification of words. */
module Tables {
  /** Reserved words and the token each one yields; "If" and "if" both yield IF. */
  const ReservedWords: map<string, string> := map[
    "int" := "INTDEF",
    "float" := "FLOATDEF",
    "char" := "CHAR_TYPE",
    "bool" := "BOLL_TYPE",
    "return" := "RETURN",
    "If" := "IF",
    "if" := "IF"
  ]

  /** Single-character tokens emitted as soon as the character is read. The
      entry for '/' is never consulted: the automaton handles '/' first. */
  const SimpleTokens: map<char, string> := map[
    '(' := "LParenteses",
    ')' := "RParenteses",
    '{' := "LChave",
    '}' := "RChave",
    '[' := "Lcolchete",
    ']' := "RColchete",
    '+' := "SUM",
    '-' := "SUB",
    '*' := "MULT",
    '/' := "DIV",
    '%' := "RESTO",
    ',' := "Virgula",
    ';' := "PVirgula"
  ]

  /** The message that a word which is neither reserved nor a variable yields;
      it goes into the token list as if it were a token. */
  const InvalidIdentifier := "Erro: Identificador inválido (deve iniciar com VAR)"

  /** Token names the automaton itself produces, beside those of the tables. */
  const AutomatonTokens: set<string> := {
    "NUM_INT", "NUM_FLOAT", "VAR", "GEQ", "GT", "LEQ", "LT", "EQ", "Atribuicao",
    "DIF", "NEG", "DIV", "AND", "OR", InvalidIdentifier
  }

  /** Every string the lexer can put into its token list. */
  const TokenKinds: set<string> := ReservedWords.Values + SimpleTokens.Values + AutomatonTokens

  predicate HasVarPrefix(w: string) {
    |w| >= 3 && w[..3] == "VAR"
  }

  /** Classifies a finished word: reserved word first, then a variable (any
      word beginning with "VAR"), otherwise the invalid-identifier message. */
  function WordKind(w: string): (kind: string)
    ensures w in ReservedWords ==> kind == ReservedWords[w]
    ensures w !in ReservedWords ==> (kind == "VAR" <==> HasVarPrefix(w))
    ensures w !in ReservedWords ==> (kind == InvalidIdentifier <==> !HasVarPrefix(w))
  {
    if w in ReservedWords then ReservedWords[w]
    else if HasVarPrefix(w) && |w| > 3 then "VAR"
    else if w == "VAR" then "VAR"
    else InvalidIdentifier
  }

  /** Whatever a word is classified as belongs to the closed set of token kinds. */
  lemma WordKindIsKnown(w: string)
    ensures WordKind(w) in TokenKinds
  {
    if w in ReservedWords {
      assert ReservedWords[w] in ReservedWords.Values;
    }
  }

  /** Every entry of the single-character table belongs to the closed set of
      token kinds. */
  lemma SimpleTokenIsKnown(c: char)
    requires c in SimpleTokens
    ensures SimpleTokens[c] in TokenKinds
  {
    assert SimpleTokens[c] in SimpleTokens.Values;
  }
}
