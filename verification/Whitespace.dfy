/** HTML whitespace, as jQuery's and Sizzle's regular expressions spell it. */
module Whitespace {
  predicate White(c: char) {
    c == ' ' || c == '\t' || c == '\r' || c == '\n' || c == '\U{C}'
  }
}
