/** The per-thread session store (`SessionInfo`, `set_session`,
    `get_session`): for one thread, a map from name to active session. */
module SessionStore {
  import opened Values

  type Store = map<Name, Session>

  /** Two stores agree on every name except `n`. */
  ghost predicate SameElsewhere(a: Store, b: Store, n: Name) {
    forall k :: k != n ==> Get(a, k) == Get(b, k)
  }

  /** `get_session`: the session under `n`, or `None`; never fails. */
  function Get(st: Store, n: Name): (r: Option<Session>)
    ensures r.None? <==> n !in st
    ensures r.Some? ==> n in st && st[n] == r.value
  {
    if n in st then Some(st[n]) else None
  }

  /** Publishing `s` under `n`, replacing whatever was there. */
  function Put(st: Store, n: Name, s: Session): (r: Store)
    ensures Get(r, n) == Some(s)
    ensures SameElsewhere(st, r, n)
  {
    st[n := s]
  }

  /** `set_session`: a session is stored under `n`; `None` deletes the
      entry, and deleting a name the store lacks raises `KeyError`. */
  function Set(st: Store, n: Name, s: Option<Session>): (r: Result<Store>)
    ensures s.Some? ==> r.Ok? && Get(r.value, n) == s
    ensures s.None? ==> (r.Ok? <==> n in st)
    ensures r.Ok? ==> Get(r.value, n) == s && SameElsewhere(st, r.value, n)
    ensures r.Err? ==> r.error == KeyError(n)
  {
    match s
    case Some(v) => Ok(Put(st, n, v))
    case None => if n in st then Ok(st - {n}) else Err(KeyError(n))
  }

  /** Writing then reading the same name gives back what was written,
      whatever the store held before. */
  lemma SetThenGet(st: Store, n: Name, s: Session)
    ensures Set(st, n, Some(s)).Ok?
    ensures Get(Set(st, n, Some(s)).value, n) == Some(s)
  {
  }

  /** Setting then deleting a name that was absent restores the store
      exactly; deleting then restoring the old session does too. */
  lemma SetDeleteRoundTrip(st: Store, n: Name, s: Session)
    ensures n !in st ==> Set(Set(st, n, Some(s)).value, n, None) == Ok(st)
    ensures n in st ==> Set(st, n, None).Ok? && Put(Set(st, n, None).value, n, st[n]) == st
  {
    if n !in st {
      assert Set(st, n, Some(s)).value - {n} == st;
    } else {
      assert (st - {n})[n := st[n]] == st;
    }
  }

  /** A second deletion of the same name always raises `KeyError`. */
  lemma DoubleDelete(st: Store, n: Name)
    requires n in st
    ensures Set(st, n, None).Ok?
    ensures Set(Set(st, n, None).value, n, None) == Err(KeyError(n))
  {
  }
}
