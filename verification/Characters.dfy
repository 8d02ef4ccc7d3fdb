/** Character classes shared by the modules that read names and numbers. */
module Characters {

  predicate IsDigit(c: char) {
    '0' <= c <= '9'
  }
}
