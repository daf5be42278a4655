module Logic {
  /** p as one proposition: a caller that already has p passes it on without proving its parts again. */
  ghost predicate Whole(p: bool) {
    p <==> true
  }
}
