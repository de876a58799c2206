/** The session scopes (`SQLAlchemySession`, `SharedSQLAlchemySession`):
    construction, entry and exit as transitions of one thread's state. */
module Scopes {
  import opened Values
  import SessionStore
  import TwoPhase

  /** The part of a thread the scopes change: its session store, the
      number of sessions created so far (the next fresh identity), and the
      sessions flushed so far, in order. */
  datatype Thread = Thread(store: SessionStore.Store, created: nat, flushes: seq<Session>)

  /** Every published session was created earlier in this thread. */
  ghost predicate Valid(t: Thread) {
    forall n :: n in t.store ==> t.store[n].id < t.created
  }

  /** The attributes a plain scope keeps from construction: the name, the
      two-phase flag (`None` until resolved) and the transaction manager. */
  datatype Config = Config(name: Name, twoPhase: Option<bool>, tm: TxManager)

  /** A scope object with the attributes its class gives it. */
  datatype Scope =
      /** `SQLAlchemySession`; `session` is set by entry. */
    | Owned(cfg: Config, session: Option<Session>)
      /** `SharedSQLAlchemySession` built while nothing was active under
          the name: while `session` is `None` it enters like a plain
          scope, and once an entry has set it, it reuses that session. */
    | SharedNew(cfg: Config, session: Option<Session>)
      /** `SharedSQLAlchemySession` built while `session` was active. */
    | SharedReuse(active: Session)
  {
    /** The scope's `session` attribute. */
    function Held(): Option<Session> {
      if SharedReuse? then Some(active) else session
    }

    /** A shared scope whose `session` attribute is set: its entry hands
        that session out. */
    predicate Reuses() {
      !Owned? && Held().Some?
    }
  }

  /** What an entry leaves: the scope with its new attributes, the thread,
      and the session handed to the `with` body or the exception raised. */
  datatype Entered = Entered(scope: Scope, thread: Thread, result: Result<Session>)

  /** What an exit or a whole `with` block leaves: the thread and the
      exception that propagates, if any. */
  datatype Outcome = Outcome(thread: Thread, error: Option<Error>)

  /** `SQLAlchemySession(name, transaction_manager, two_phase)`: a missing
      transaction manager is replaced by the current one. */
  function NewPlain(n: Name, tm: Option<TxManager>, twoPhase: Option<bool>, current: TxManager): (r: Scope)
    ensures r.Owned? && r.session.None?
    ensures r.cfg.name == n && r.cfg.twoPhase == twoPhase
    ensures tm.Some? ==> r.cfg.tm == tm.value
    ensures tm.None? ==> r.cfg.tm == current
  {
    var manager := match tm case Some(m) => m case None => current;
    Owned(Config(n, twoPhase, manager), None)
  }

  /** `SharedSQLAlchemySession(name, ...)`: looks the name up in the store
      at construction time and reuses what it finds. */
  function NewShared(st: SessionStore.Store, n: Name, tm: Option<TxManager>, twoPhase: Option<bool>,
                     current: TxManager): (r: Scope)
    ensures r.SharedReuse? <==> SessionStore.Get(st, n).Some?
    ensures r.SharedReuse? ==> SessionStore.Get(st, n) == Some(r.active)
    ensures r.SharedNew? ==> r.session.None? && r.cfg == NewPlain(n, tm, twoPhase, current).cfg
  {
    match SessionStore.Get(st, n)
    case Some(s) => SharedReuse(s)
    case None => SharedNew(NewPlain(n, tm, twoPhase, current).cfg, None)
  }

  /** What opening a session leaves: the scope's configuration with the
      resolved flag stored back, the thread, and the session or the
      exception raised. */
  datatype Opened = Opened(cfg: Config, thread: Thread, result: Result<Session>)

  /** The entry shared by the plain scope and a shared scope that holds no
      session yet: look the engine up, resolve the flag, create a session
      and publish it under the name. */
  function Open(cfg: Config, t: Thread, engines: map<Name, EngineRecord>): (r: Opened)
    ensures cfg.name !in engines ==> r == Opened(cfg, t, Err(RuntimeError))
    ensures cfg.name in engines ==>
      && r.result.Ok?
      && r.result.value == Session(t.created, engines[cfg.name].engine,
                                   TwoPhase.Resolve(cfg.twoPhase, engines[cfg.name].engine.dialect))
      && r.cfg == cfg.(twoPhase := Some(r.result.value.twoPhase))
      && SessionStore.Get(r.thread.store, cfg.name) == Some(r.result.value)
      && SessionStore.SameElsewhere(t.store, r.thread.store, cfg.name)
      && r.thread.created == t.created + 1
      && r.thread.flushes == t.flushes
  {
    if cfg.name !in engines then Opened(cfg, t, Err(RuntimeError))
    else
      var engine := engines[cfg.name].engine;
      var flag := TwoPhase.Resolve(cfg.twoPhase, engine.dialect);
      var s := Session(t.created, engine, flag);
      Opened(cfg.(twoPhase := Some(flag)),
             t.(store := SessionStore.Put(t.store, cfg.name, s), created := t.created + 1), Ok(s))
  }

  /** `__enter__` of either scope class. A shared scope that holds a
      session, whether found at construction or made by an earlier entry,
      hands it out and changes nothing; every other entry opens a new
      session. */
  function Enter(sc: Scope, t: Thread, engines: map<Name, EngineRecord>): (r: Entered)
    ensures sc.Reuses() ==> r == Entered(sc, t, Ok(sc.Held().value))
    ensures !sc.Reuses() && sc.cfg.name !in engines ==> r == Entered(sc, t, Err(RuntimeError))
    ensures !sc.Reuses() && sc.cfg.name in engines ==>
      var engine := engines[sc.cfg.name].engine;
      && r.result.Ok?
      && r.result.value == Session(t.created, engine, TwoPhase.Resolve(sc.cfg.twoPhase, engine.dialect))
      && r.scope.Held() == Some(r.result.value)
      && r.scope.Owned? == sc.Owned?
      && !r.scope.SharedReuse?
      && r.scope.cfg == sc.cfg.(twoPhase := Some(r.result.value.twoPhase))
      && SessionStore.Get(r.thread.store, sc.cfg.name) == Some(r.result.value)
      && SessionStore.SameElsewhere(t.store, r.thread.store, sc.cfg.name)
      && r.thread.created == t.created + 1
      && r.thread.flushes == t.flushes
  {
    match sc
    case SharedReuse(s) => Entered(sc, t, Ok(s))
    case SharedNew(_, Some(s)) => Entered(sc, t, Ok(s))
    case Owned(cfg, _) =>
      var o := Open(cfg, t, engines);
      if o.result.Err? then Entered(sc, t, o.result) else Entered(Owned(o.cfg, Some(o.result.value)), o.thread, o.result)
    case SharedNew(cfg, None) =>
      var o := Open(cfg, t, engines);
      if o.result.Err? then Entered(sc, t, o.result) else Entered(SharedNew(o.cfg, Some(o.result.value)), o.thread, o.result)
  }

  /** `session.flush()`: either raises, changing nothing, or records the
      flush. */
  function Flush(t: Thread, s: Session, fails: bool): (r: Outcome)
    ensures fails ==> r == Outcome(t, Some(FlushFailed))
    ensures !fails ==> r.error.None? && r.thread == t.(flushes := t.flushes + [s])
  {
    if fails then Outcome(t, Some(FlushFailed)) else Outcome(t.(flushes := t.flushes + [s]), None)
  }

  /** `__exit__` of either scope class. The plain scope flushes and then
      deletes its name from the store; with no `try`/`finally`, a failed
      flush skips the deletion. The shared scope only flushes. A scope
      never entered has no session to flush. */
  function Exit(sc: Scope, t: Thread, flushFails: bool): (r: Outcome)
    ensures sc.Held().None? ==> r == Outcome(t, Some(AttributeError))
    ensures sc.Held().Some? && flushFails ==> r == Outcome(t, Some(FlushFailed))
    ensures sc.Held().Some? && !flushFails ==> r.thread.flushes == t.flushes + [sc.Held().value]
    ensures r.thread.created == t.created
    ensures !sc.Owned? ==> r.thread.store == t.store
    ensures !sc.Owned? && sc.Held().Some? && !flushFails ==> r.error.None?
    ensures sc.Owned? && sc.session.Some? && !flushFails ==>
      && (r.error.None? <==> sc.cfg.name in t.store)
      && (r.error.Some? ==> r.error.value == KeyError(sc.cfg.name) && r.thread.store == t.store)
      && SessionStore.Get(r.thread.store, sc.cfg.name).None?
      && SessionStore.SameElsewhere(t.store, r.thread.store, sc.cfg.name)
  {
    match sc
    case SharedReuse(s) => Flush(t, s, flushFails)
    case SharedNew(_, None) => Outcome(t, Some(AttributeError))
    case SharedNew(_, Some(s)) => Flush(t, s, flushFails)
    case Owned(_, None) => Outcome(t, Some(AttributeError))
    case Owned(cfg, Some(s)) =>
      var f := Flush(t, s, flushFails);
      if f.error.Some? then f
      else match SessionStore.Set(f.thread.store, cfg.name, None)
        case Err(e) => Outcome(f.thread, Some(e))
        case Ok(st) => Outcome(f.thread.(store := st), None)
  }
}
