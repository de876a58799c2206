/** Resolution of the two-phase commit flag of a scope. */
module TwoPhase {
  import opened Values

  /** `TWO_PHASED`: the dialect names that get two-phase commit when the
      caller leaves the flag unspecified. */
  const TwoPhased: set<string> := {"postgre", "postgresql", "mysql"}

  /** The flag a scope uses with an engine of dialect `dialect`: an
      explicit request is kept, never checked against the dialect; an
      unspecified one is derived from the dialect name. */
  function Resolve(requested: Option<bool>, dialect: string): (r: bool)
    ensures requested.Some? ==> r == requested.value
    ensures requested.None? ==> (r <==> dialect in TwoPhased)
  {
    match requested
    case Some(b) => b
    case None => dialect in TwoPhased
  }

  /** An unspecified flag is set for the PostgreSQL and MySQL dialects and
      cleared for any other, such as SQLite. */
  lemma DefaultByDialect()
    ensures Resolve(None, "postgresql") && Resolve(None, "postgre") && Resolve(None, "mysql")
    ensures !Resolve(None, "sqlite") && !Resolve(None, "oracle")
  {
  }
}
