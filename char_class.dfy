/**
  Character classes the automaton tests. `index.py` uses Python's Unicode
  classification; here each class is its ASCII part.
*/
module CharClass {
  /** Whitespace: tab, line feed, vertical tab, form feed, carriage return,
      the four ASCII separators 0x1C..0x1F, and the space. */
  predicate IsSpace(c: char) {
    c == ' ' || ('\t' <= c <= '\r') || ('\U{1C}' <= c <= '\U{1F}')
  }

  predicate IsDigit(c: char) {
    '0' <= c <= '9'
  }

  predicate IsAlpha(c: char) {
    ('a' <= c <= 'z') || ('A' <= c <= 'Z')
  }

  /** Letters and digits, the class that continues a word. */
  predicate IsAlnum(c: char) {
    IsAlpha(c) || IsDigit(c)
  }

  /** The two classes whose maximal runs make up numbers and words. */
  datatype RunClass = Digits | Alnums

  predicate InRun(cls: RunClass, c: char) {
    match cls
    case Digits => IsDigit(c)
    case Alnums => IsAlnum(c)
  }
}
