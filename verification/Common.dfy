/** What every part of the model uses. */
module Common {
  /** A row id; only equality of ids matters. */
  type Id = nat

  /** A nullable column, or a query for at most one row. */
  datatype Option<+T> = None | Some(value: T)

  /** Nothing is left after SQL trim, which removes blanks only. */
  predicate OnlyBlanks(s: string) {
    forall i | 0 <= i < |s| :: s[i] == ' '
  }
}
