# cromlech.sqlalchemy session scoping, modelled in Dafny

This project models the session-scoping core of `cromlech.sqlalchemy`, found in
`src/cromlech/sqlalchemy/controlled.py`. It covers four pieces:

- **The per-thread session store.** `SessionInfo`, `set_session` and `get_session` map a
  database name to the session active in the current thread.
- **Deferred metadata binding.** `deferred_bind` records which metadata objects belong to
  which engine name. If the engine already exists, it binds the metadata to it.
- **Two-phase flag resolution.** `TWO_PHASED` lists the dialects that get two-phase commit
  when the caller does not say.
- **The two scope classes.** `SQLAlchemySession` creates a session on `__enter__`, publishes
  it to the store, and on `__exit__` flushes it and unpublishes it. `SharedSQLAlchemySession`
  hands out the session its `session` attribute holds, and on exit only flushes. That
  attribute holds the session found active when the scope was built. If none was active, it
  holds the session the first entry created.

Everything is written as pure functions over immutable values:

- The thread's state (`Scopes.Thread`) is the session store, a counter that gives every new
  session a fresh identity, and a log of flushed sessions.
- The engine registry that `query_engine` reads is a plain map from name to engine record.
  It is passed in as a parameter.
- The `bind` attribute of each metadata object is a map from metadata identity to engine.
- Python exceptions are values of `Values.Error`. An operation that can raise returns the
  state it leaves together with the exception.
- `Nesting` runs trees of nested `with` statements. It applies Python's rules: exit runs
  once entry has succeeded, an exception from exit replaces the body's, and sibling blocks
  stop at the first exception.

In places the code does less than a session scope is usually expected to do. The model follows the code:

- **An explicit `two_phase` flag is used as given.** Nothing checks it against the dialect,
  so a two-phase request on a SQLite engine is accepted (`ScopeLemmas.ExplicitTwoPhaseKept`).
- **There is no `try`/`finally` in `__exit__`.** If the flush fails, the session stays
  published (`ScopeLemmas.FailedFlushKeepsEntry`).
- **A shared scope never unpublishes, even when it created the session itself.** This holds
  when the store had no session for its name at construction
  (`ScopeLemmas.SharedNewLeavesEntry`).
- **Re-entering a plain scope under an active name overwrites the entry.** The inner exit
  then deletes the entry, and the outer exit raises `KeyError` after flushing
  (`ScopeLemmas.PlainInsidePlainDoubleDelete`).
- **The `deferred_bind` guard always holds.** At line 46 it tests the metadata object
  against the binding table's keys, which are names, so it is true for every metadata
  object. The model therefore records the metadata and re-binds it on every call. The
  result is still idempotent.
- **The transaction manager goes unused.** `SQLAlchemySession` stores it, but the session
  never receives it: `ZopeTransactionExtension()` is built without it. The model keeps it
  in `Scopes.Config` and nowhere else.

## Model

| member | source | states |
|---|---|---|
| SessionStore.Get | src/cromlech/sqlalchemy/controlled.py:29-33 | never fails; `None` exactly when the name has no entry, otherwise the stored session |
| SessionStore.Set | src/cromlech/sqlalchemy/controlled.py:21-26 | a session is then read back under the name and no other name changes; `None` removes the name, and raises `KeyError` exactly when the name was absent |
| SessionStore.Put | src/cromlech/sqlalchemy/controlled.py:24-24 | after storing, the name reads back the given session and no other name changes |
| SessionStore.SetThenGet | src/cromlech/sqlalchemy/controlled.py:21-33 | storing a session always succeeds and `get_session` then returns it |
| SessionStore.SetDeleteRoundTrip | src/cromlech/sqlalchemy/controlled.py:21-26 | storing then deleting an absent name restores the store; deleting then restoring an entry restores it too |
| SessionStore.DoubleDelete | src/cromlech/sqlalchemy/controlled.py:25-26 | deleting the same name a second time raises `KeyError` |
| MetadataBinding.DeferredBind | src/cromlech/sqlalchemy/controlled.py:36-50 | the name's set gains the metadata and other names keep theirs; `bind` becomes the registered engine if there is one, else stays untouched; no other metadata changes |
| MetadataBinding.DeferredBindIdempotent | src/cromlech/sqlalchemy/controlled.py:43-50 | two identical calls with an unchanged engine registry leave the state of one |
| MetadataBinding.DeclareThenBindLater | src/cromlech/sqlalchemy/controlled.py:40-50 | declaring before the engine exists does not bind; declaring again after it is registered binds to it |
| TwoPhase.Resolve | src/cromlech/sqlalchemy/controlled.py:88-89 | an explicit flag is returned unchanged; an unspecified one is true exactly for the postgre, postgresql and mysql dialects |
| TwoPhase.DefaultByDialect | src/cromlech/sqlalchemy/controlled.py:53-53 | unspecified flag: set for PostgreSQL and MySQL, clear for SQLite |
| Scopes.NewPlain | src/cromlech/sqlalchemy/controlled.py:64-76 | a not-yet-entered scope keeping the name and the requested flag; a missing transaction manager is replaced by the current one |
| Scopes.NewShared | src/cromlech/sqlalchemy/controlled.py:113-116 | reuses a session exactly when the store holds one for the name at construction, and then that very session |
| Scopes.Open | src/cromlech/sqlalchemy/controlled.py:82-98 | no engine: `RuntimeError` with nothing changed; otherwise a session with the next fresh identity, on that engine and with the resolved flag, is published under the name, the resolved flag is stored back and other names are untouched |
| Scopes.Flush | src/cromlech/sqlalchemy/controlled.py:103-103 | a failing flush raises and changes nothing; a good one only appends the session to the flush log |
| Scopes.Enter | src/cromlech/sqlalchemy/controlled.py:78-121 | a shared scope holding a session returns it and changes nothing; otherwise `RuntimeError` before publication, or a new session (fresh identity, the registered engine, the resolved flag) published under the name, with the flag stored in the scope and other names untouched |
| Scopes.Exit | src/cromlech/sqlalchemy/controlled.py:100-126 | a plain scope flushes, then deletes its name, raising `KeyError` exactly when it is already gone; a failed flush skips the deletion; a shared scope only flushes and raises nothing when the flush succeeds; a scope whose `session` is missing or `None` raises `AttributeError` |
| ScopeLemmas.EnterExitKeepValid | src/cromlech/sqlalchemy/controlled.py:91-104 | entry and exit keep every published session older than the session counter |
| ScopeLemmas.EnterCreatesNewSession | src/cromlech/sqlalchemy/controlled.py:91-94 | an entry that opens a session (any scope but a shared one already holding a session) yields a session distinct from every session already published |
| ScopeLemmas.PlainScopeRoundTrip | src/cromlech/sqlalchemy/controlled.py:78-104 | entering then leaving a plain scope under an inactive name restores the store and flushes just its session |
| ScopeLemmas.PlainReentryOverwrites | src/cromlech/sqlalchemy/controlled.py:91-104 | entering a plain scope under an active name replaces the entry with a new session, and after its exit the name has no entry |
| ScopeLemmas.EnterWithoutEngineChangesNothing | src/cromlech/sqlalchemy/controlled.py:82-84 | with no engine, entry raises `RuntimeError` and leaves the thread as it was, for a plain scope, and for a shared scope that found nothing |
| ScopeLemmas.ExplicitTwoPhaseKept | src/cromlech/sqlalchemy/controlled.py:88-94 | an explicit flag reaches the session unchanged, on any dialect |
| ScopeLemmas.ReentryKeepsResolvedFlag | src/cromlech/sqlalchemy/controlled.py:88-89 | the derived flag follows the dialect, is stored in the scope, and survives a second entry against another engine |
| ScopeLemmas.SharedInsidePlain | src/cromlech/sqlalchemy/controlled.py:113-126 | an inner shared scope returns the outer session and publishes nothing; the entry survives the inner exit and goes at the outer exit |
| ScopeLemmas.PlainInsidePlainDoubleDelete | src/cromlech/sqlalchemy/controlled.py:100-104 | nested plain scopes under one name: the outer exit flushes, then raises `KeyError` |
| ScopeLemmas.SharedNewLeavesEntry | src/cromlech/sqlalchemy/controlled.py:118-126 | a shared scope that found nothing publishes a session and leaves it published after exit |
| ScopeLemmas.FailedFlushKeepsEntry | src/cromlech/sqlalchemy/controlled.py:100-104 | a failing flush propagates and the session stays published |
| ScopeLemmas.SharedCapturesAtConstruction | src/cromlech/sqlalchemy/controlled.py:113-120 | a shared scope returns the session it saw at construction, even after its owner has unpublished it |
| ScopeLemmas.SharedReentryReusesSession | src/cromlech/sqlalchemy/controlled.py:113-121 | a shared scope that found nothing returns the session its first entry made on every later entry, creating and publishing nothing, even with no engine registered |
| ScopeLemmas.ExitBeforeEnter | src/cromlech/sqlalchemy/controlled.py:100-104 | leaving a scope whose `session` is missing or `None` (a plain scope, or a shared scope that found nothing, before entry) raises `AttributeError` and changes nothing |
| Nesting.ScopeOf | src/cromlech/sqlalchemy/controlled.py:64-116 | the block's scope: plain as constructed, or shared reusing exactly when the name is active |
| Nesting.Run | src/cromlech/sqlalchemy/controlled.py:78-126 | a `with` block changes only the entries of names it mentions; a plain block with an engine and a good flush flushes its own session last and leaves its name unpublished; an exception from the body or from an inner block at any depth is never swallowed, and propagates unchanged whenever the exit succeeds (a shared block with a good flush, or a plain block whose name is still published after its body); no engine means `RuntimeError` with nothing changed, unless a shared block reuses an active session |
| Nesting.RunAll | src/cromlech/sqlalchemy/controlled.py:78-126 | blocks in sequence change only the entries of names they mention, never lose flushes, never decrease the session counter, and raise whenever any block in them raises, at any depth |
| Nesting.RunKeepsValid | src/cromlech/sqlalchemy/controlled.py:91-104 | any nesting of blocks keeps every published session older than the session counter |
| Nesting.RunAllKeepsValid | src/cromlech/sqlalchemy/controlled.py:91-104 | the same for blocks in sequence |
| Nesting.RaisingBodyStillCleansUp | src/cromlech/sqlalchemy/controlled.py:100-104 | a plain block whose body raises, and whose inner blocks do not reuse its name, still flushes and unpublishes its session and propagates the body's or inner block's exception; when its name was inactive before, names outside the body come back as they were |
| Nesting.SharedBlockInsidePlainBlock | src/cromlech/sqlalchemy/controlled.py:107-126 | for a name inactive beforehand, an outer plain block around an inner shared block of that name flushes one session twice and leaves the store as it was |

## Left out

- Thread isolation of `SessionInfo` (a `threading.local`): the model holds the store of one thread; keeping threads apart is the runtime's job.
- The engine registry (`query_engine`, `register_engine`, `metadata_base_registry`): these are imported from `components.py`, but that file does not define them, so they are not part of this model. The registry is an abstract map parameter, and no registration policy is modelled.
- The binding step that engine creation should perform for pending metadata: `create_engine` in `components.py` does not perform it, so nothing models it.
- `scoped_session`, `sessionmaker`, `ZopeTransactionExtension` and `transaction.manager`: these are foreign objects. A created session is a fresh identity with its engine and flag. The current transaction manager is a parameter.
- `flush`: its effect on the database is opaque. The model records a successful flush in a log, and a failing flush is a boolean input.
- The `engine` attribute that `__enter__` stores on the scope: nothing else reads it.
- The `type`, `value` and `traceback` arguments of `__exit__`: the code ignores them. `Nesting.Run` models their only effect, which is that the body's exception propagates.
- `controled.py`, `declarative.py`, `components.py`, `__init__.py` and `setup.py`: an outdated duplicate, ORM metaclass plumbing, thin wrappers and packaging.
