/** Kinds of characters. */
module Characters {
  predicate IsDigit(c: char) { '0' <= c <= '9' }
}
