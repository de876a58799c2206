/** Properties of scope entry and exit, alone and in sequence: what the
    store holds afterwards, what is flushed, and when an exception is
    raised. */
module ScopeLemmas {
  import opened Values
  import SessionStore
  import TwoPhase
  import opened Scopes

  /** Entry and exit keep every published session older than the
      session counter. */
  lemma EnterExitKeepValid(sc: Scope, t: Thread, engines: map<Name, EngineRecord>, flushFails: bool)
    requires Valid(t)
    ensures Valid(Enter(sc, t, engines).thread)
    ensures Valid(Exit(sc, t, flushFails).thread)
  {
    var e := Enter(sc, t, engines);
    if !sc.SharedReuse? && sc.cfg.name in engines {
      forall n | n in e.thread.store
        ensures e.thread.store[n].id < e.thread.created
      {
        if n != sc.cfg.name {
          assert SessionStore.Get(t.store, n) == SessionStore.Get(e.thread.store, n);
        }
      }
    }
    var x := Exit(sc, t, flushFails);
    if sc.Owned? && sc.session.Some? && !flushFails && x.error.None? {
      forall n | n in x.thread.store
        ensures x.thread.store[n].id < x.thread.created
      {
        assert SessionStore.Get(t.store, n) == SessionStore.Get(x.thread.store, n);
      }
    }
  }

  /** A session made by an entry is a new object: it is none of the
      sessions the store held before. */
  lemma EnterCreatesNewSession(sc: Scope, t: Thread, engines: map<Name, EngineRecord>, n: Name)
    requires Valid(t)
    requires !sc.Reuses() && sc.cfg.name in engines
    requires n in t.store
    ensures Enter(sc, t, engines).result.Ok?
    ensures Enter(sc, t, engines).result.value != t.store[n]
  {
  }

  /** A plain scope entered and left under a name nothing held restores
      the store, and flushes exactly its own session. */
  lemma PlainScopeRoundTrip(t: Thread, engines: map<Name, EngineRecord>, n: Name, tm: Option<TxManager>,
                            twoPhase: Option<bool>, current: TxManager)
    requires n !in t.store && n in engines
    ensures var e := Enter(NewPlain(n, tm, twoPhase, current), t, engines);
      && e.result.Ok?
      && SessionStore.Get(e.thread.store, n) == Some(e.result.value)
      && Exit(e.scope, e.thread, false) == Outcome(t.(created := t.created + 1, flushes := t.flushes + [e.result.value]), None)
  {
    var e := Enter(NewPlain(n, tm, twoPhase, current), t, engines);
    var x := Exit(e.scope, e.thread, false);
    assert x.thread.store == t.store by {
      assert x.thread.store.Keys == t.store.Keys by {
        forall k ensures k in x.thread.store <==> k in t.store {
          if k != n {
            assert SessionStore.Get(t.store, k) == SessionStore.Get(e.thread.store, k);
          }
        }
      }
      forall k | k in t.store ensures x.thread.store[k] == t.store[k] {
        assert SessionStore.Get(t.store, k) == SessionStore.Get(e.thread.store, k);
      }
    }
  }

  /** Entering a plain scope under a name that is already active
      overwrites the entry with a new session; its exit then leaves the
      name with no entry at all, so the earlier session is lost. */
  lemma PlainReentryOverwrites(t: Thread, engines: map<Name, EngineRecord>, n: Name, tm: Option<TxManager>,
                               twoPhase: Option<bool>, current: TxManager)
    requires Valid(t)
    requires n in t.store && n in engines
    ensures var e := Enter(NewPlain(n, tm, twoPhase, current), t, engines);
      && e.result.Ok?
      && e.result.value != t.store[n]
      && SessionStore.Get(e.thread.store, n) == Some(e.result.value)
      && Exit(e.scope, e.thread, false).error.None?
      && SessionStore.Get(Exit(e.scope, e.thread, false).thread.store, n).None?
  {
  }

  /** Entry with no engine registered raises `RuntimeError` before any
      session is created or published: the thread is left as it was. */
  lemma EnterWithoutEngineChangesNothing(t: Thread, engines: map<Name, EngineRecord>, n: Name, tm: Option<TxManager>,
                                         twoPhase: Option<bool>, current: TxManager)
    requires n !in engines
    ensures Enter(NewPlain(n, tm, twoPhase, current), t, engines).result == Err(RuntimeError)
    ensures Enter(NewPlain(n, tm, twoPhase, current), t, engines).thread == t
    ensures SessionStore.Get(t.store, n).None? ==>
      Enter(NewShared(t.store, n, tm, twoPhase, current), t, engines) ==
        Entered(NewShared(t.store, n, tm, twoPhase, current), t, Err(RuntimeError))
  {
  }

  /** An explicit two-phase request is used as given, whatever the
      dialect: no capability check rejects it. */
  lemma ExplicitTwoPhaseKept(t: Thread, engines: map<Name, EngineRecord>, n: Name, flag: bool, tm: Option<TxManager>,
                             current: TxManager)
    requires n in engines
    ensures Enter(NewPlain(n, tm, Some(flag), current), t, engines).result.Ok?
    ensures Enter(NewPlain(n, tm, Some(flag), current), t, engines).result.value.twoPhase == flag
  {
  }

  /** An unspecified flag is resolved from the engine's dialect, and the
      resolved value is kept in the scope: entering the same scope again
      keeps it even if the engine under the name has changed dialect. */
  lemma ReentryKeepsResolvedFlag(t: Thread, engines: map<Name, EngineRecord>, engines2: map<Name, EngineRecord>,
                                 n: Name, tm: Option<TxManager>, current: TxManager)
    requires n in engines && n in engines2
    ensures var e := Enter(NewPlain(n, tm, None, current), t, engines);
      && e.result.Ok?
      && (e.result.value.twoPhase <==> engines[n].engine.dialect in TwoPhase.TwoPhased)
      && var x := Exit(e.scope, e.thread, false);
         var e2 := Enter(e.scope, x.thread, engines2);
         e2.result.Ok? && e2.result.value.twoPhase == e.result.value.twoPhase
  {
  }

  /** A shared scope built while a plain scope is active hands out the
      very same session, publishes nothing, and its exit only flushes:
      the entry survives the inner exit and goes at the outer exit. */
  lemma SharedInsidePlain(t: Thread, engines: map<Name, EngineRecord>, n: Name, tm: Option<TxManager>,
                          twoPhase: Option<bool>, current: TxManager)
    requires n !in t.store && n in engines
    ensures var outer := Enter(NewPlain(n, tm, twoPhase, current), t, engines);
      && outer.result.Ok?
      && var s := outer.result.value;
         var inner := Enter(NewShared(outer.thread.store, n, tm, twoPhase, current), outer.thread, engines);
         && inner.result == Ok(s)
         && inner.thread == outer.thread
         && var ix := Exit(inner.scope, inner.thread, false);
            && ix.error.None?
            && ix.thread.store == outer.thread.store
            && SessionStore.Get(ix.thread.store, n) == Some(s)
            && var ox := Exit(outer.scope, ix.thread, false);
               && ox.error.None?
               && SessionStore.Get(ox.thread.store, n).None?
               && ox.thread.store == t.store
               && ox.thread.flushes == t.flushes + [s, s]
  {
    var outer := Enter(NewPlain(n, tm, twoPhase, current), t, engines);
    var s := outer.result.value;
    var inner := Enter(NewShared(outer.thread.store, n, tm, twoPhase, current), outer.thread, engines);
    var ix := Exit(inner.scope, inner.thread, false);
    var ox := Exit(outer.scope, ix.thread, false);
    assert ox.thread.store == t.store by {
      assert ox.thread.store.Keys == t.store.Keys by {
        forall k ensures k in ox.thread.store <==> k in t.store {
          if k != n {
            assert SessionStore.Get(t.store, k) == SessionStore.Get(outer.thread.store, k);
          }
        }
      }
      forall k | k in t.store ensures ox.thread.store[k] == t.store[k] {
        assert SessionStore.Get(t.store, k) == SessionStore.Get(outer.thread.store, k);
      }
    }
  }

  /** Two plain scopes nested under one name: the inner exit deletes the
      entry, so the outer exit flushes and then raises `KeyError`. */
  lemma PlainInsidePlainDoubleDelete(t: Thread, engines: map<Name, EngineRecord>, n: Name, tm: Option<TxManager>,
                                     twoPhase: Option<bool>, current: TxManager)
    requires n in engines
    ensures var outer := Enter(NewPlain(n, tm, twoPhase, current), t, engines);
      && outer.result.Ok?
      && var inner := Enter(NewPlain(n, tm, twoPhase, current), outer.thread, engines);
         && inner.result.Ok?
         && inner.result.value != outer.result.value
         && var ix := Exit(inner.scope, inner.thread, false);
            && ix.error.None?
            && SessionStore.Get(ix.thread.store, n).None?
            && var ox := Exit(outer.scope, ix.thread, false);
               && ox.error == Some(KeyError(n))
               && ox.thread.flushes == t.flushes + [inner.result.value, outer.result.value]
  {
  }

  /** A shared scope that found nothing active creates and publishes a
      session like a plain scope, but its exit leaves the entry behind. */
  lemma SharedNewLeavesEntry(t: Thread, engines: map<Name, EngineRecord>, n: Name, tm: Option<TxManager>,
                             twoPhase: Option<bool>, current: TxManager)
    requires n !in t.store && n in engines
    ensures var e := Enter(NewShared(t.store, n, tm, twoPhase, current), t, engines);
      && e.result.Ok?
      && var x := Exit(e.scope, e.thread, false);
         x.error.None? && SessionStore.Get(x.thread.store, n) == Some(e.result.value)
  {
  }

  /** A failed flush at the exit of a plain scope propagates and leaves
      the session published. */
  lemma FailedFlushKeepsEntry(t: Thread, engines: map<Name, EngineRecord>, n: Name, tm: Option<TxManager>,
                              twoPhase: Option<bool>, current: TxManager)
    requires n in engines
    ensures var e := Enter(NewPlain(n, tm, twoPhase, current), t, engines);
      && e.result.Ok?
      && Exit(e.scope, e.thread, true) == Outcome(e.thread, Some(FlushFailed))
      && SessionStore.Get(Exit(e.scope, e.thread, true).thread.store, n) == Some(e.result.value)
  {
  }

  /** A shared scope looks the store up when built, not when entered: if
      the owner exits in between, entry still returns the old session,
      which is no longer published. */
  lemma SharedCapturesAtConstruction(t: Thread, engines: map<Name, EngineRecord>, n: Name, tm: Option<TxManager>,
                                     twoPhase: Option<bool>, current: TxManager)
    requires n !in t.store && n in engines
    ensures var outer := Enter(NewPlain(n, tm, twoPhase, current), t, engines);
      && outer.result.Ok?
      && var shared := NewShared(outer.thread.store, n, tm, twoPhase, current);
         var ox := Exit(outer.scope, outer.thread, false);
         && ox.error.None?
         && Enter(shared, ox.thread, engines).result == outer.result
         && SessionStore.Get(Enter(shared, ox.thread, engines).thread.store, n).None?
  {
  }

  /** A shared scope that found nothing keeps the session its first entry
      made: entering the same object again returns that session, creates
      nothing and publishes nothing, even once the engine is gone. */
  lemma SharedReentryReusesSession(t: Thread, engines: map<Name, EngineRecord>, later: map<Name, EngineRecord>,
                                   n: Name, tm: Option<TxManager>, twoPhase: Option<bool>, current: TxManager)
    requires n !in t.store && n in engines
    ensures var e := Enter(NewShared(t.store, n, tm, twoPhase, current), t, engines);
      && e.result.Ok?
      && var x := Exit(e.scope, e.thread, false);
         Enter(e.scope, x.thread, later) == Entered(e.scope, x.thread, e.result)
  {
  }

  /** Leaving a scope that was never entered raises `AttributeError`. */
  lemma ExitBeforeEnter(n: Name, tm: Option<TxManager>, twoPhase: Option<bool>, current: TxManager, t: Thread, flushFails: bool)
    ensures Exit(NewPlain(n, tm, twoPhase, current), t, flushFails) == Outcome(t, Some(AttributeError))
    ensures SessionStore.Get(t.store, n).None? ==>
      Exit(NewShared(t.store, n, tm, twoPhase, current), t, flushFails) == Outcome(t, Some(AttributeError))
  {
  }
}
