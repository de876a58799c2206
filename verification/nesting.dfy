/** Nested `with` statements over the scopes of one thread. A block opens
    a plain or shared scope, runs its inner blocks in order, may raise at
    the end of its body, and always runs the scope's exit once entry has
    succeeded; an exception from exit replaces the body's. */
module Nesting {
  import opened Values
  import SessionStore
  import opened Scopes
  import ScopeLemmas
  import TwoPhase

  /** `with SQLAlchemySession(name, tm, two_phase)` (or the shared class)
      around `body`; `raises` says whether the body's own code raises
      after the inner blocks, `flushFails` whether the exit's flush does. */
  datatype Block = Block(shared: bool, name: Name, tm: Option<TxManager>, twoPhase: Option<bool>,
                         body: seq<Block>, raises: bool, flushFails: bool)

  /** The process-wide collaborators: the engine registry and the current
      transaction manager. */
  datatype Env = Env(engines: map<Name, EngineRecord>, current: TxManager)

  function Names(b: Block): set<Name>
    decreases b, 0
  {
    {b.name} + NamesOf(b.body)
  }

  function NamesOf(bs: seq<Block>): set<Name>
    decreases bs, 1
  {
    if bs == [] then {} else Names(bs[0]) + NamesOf(bs[1..])
  }

  /** Some block in the tree has a body that raises. */
  predicate AnyRaises(b: Block)
    decreases b, 0
  {
    b.raises || AnyRaisesIn(b.body)
  }

  predicate AnyRaisesIn(bs: seq<Block>)
    decreases bs, 1
  {
    bs != [] && (AnyRaises(bs[0]) || AnyRaisesIn(bs[1..]))
  }

  /** The scope object the block's `with` statement builds, against the
      store as it is when the statement starts. */
  function ScopeOf(b: Block, t: Thread, env: Env): (r: Scope)
    ensures !b.shared ==> r == NewPlain(b.name, b.tm, b.twoPhase, env.current)
    ensures b.shared ==> (r.SharedReuse? <==> b.name in t.store)
  {
    if b.shared then NewShared(t.store, b.name, b.tm, b.twoPhase, env.current)
    else NewPlain(b.name, b.tm, b.twoPhase, env.current)
  }

  /** The entry of the scope the block's `with` statement builds. */
  function Opening(b: Block, t: Thread, env: Env): Entered {
    Enter(ScopeOf(b, t, env), t, env.engines)
  }

  /** The exception the body of an entered block ends with: an inner
      block's, else the body's own. */
  function BodyError(b: Block, t: Thread, env: Env): Option<Error>
    decreases b, 0
  {
    var e := Opening(b, t, env);
    var inner := RunAll(b.body, e.thread, env);
    if inner.error.Some? then inner.error else if b.raises then Some(AppError) else None
  }

  /** Runs one `with` block. A block touches only the store entries of
      the names it mentions; a plain block whose engine exists and whose
      flush succeeds flushes its own session last and leaves its name
      unpublished, whatever its body did; an exception from the body or an
      inner block at any depth is never swallowed, and propagates unchanged
      when the exit succeeds; a shared block that found its name active,
      and whose inner blocks do not mention that name, leaves that entry as
      it was. */
  function Run(b: Block, t: Thread, env: Env): (r: Outcome)
    decreases b, 1
    ensures r.thread.created >= t.created
    ensures t.flushes <= r.thread.flushes
    ensures forall k :: k !in Names(b) ==> SessionStore.Get(r.thread.store, k) == SessionStore.Get(t.store, k)
    ensures AnyRaises(b) ==> r.error.Some?
    ensures Opening(b, t, env).result.Ok? && RunAll(b.body, Opening(b, t, env).thread, env).error.Some? ==>
      r.error.Some?
    ensures !b.shared && b.name in env.engines && !b.flushFails ==> b.name !in r.thread.store
    ensures !b.shared && b.name in env.engines && !b.flushFails ==>
      var engine := env.engines[b.name].engine;
      && |r.thread.flushes| > |t.flushes|
      && r.thread.flushes[|r.thread.flushes| - 1] == Session(t.created, engine, TwoPhase.Resolve(b.twoPhase, engine.dialect))
    ensures !b.shared && b.name in env.engines && !b.flushFails && b.name !in NamesOf(b.body) ==>
      var inner := RunAll(b.body, Opening(b, t, env).thread, env).error;
      && (r.error.Some? <==> inner.Some? || b.raises)
      && (inner.Some? ==> r.error == inner)
      && (inner.None? && b.raises ==> r.error == Some(AppError))
    ensures Opening(b, t, env).result.Ok? && !b.flushFails &&
            (b.shared || b.name in RunAll(b.body, Opening(b, t, env).thread, env).thread.store) ==>
      var inner := RunAll(b.body, Opening(b, t, env).thread, env).error;
      r.error == (if inner.Some? then inner else if b.raises then Some(AppError) else None)
    ensures b.name !in env.engines && !(b.shared && b.name in t.store) ==> r == Outcome(t, Some(RuntimeError))
    ensures b.shared && b.name in t.store && b.name !in NamesOf(b.body) ==>
      SessionStore.Get(r.thread.store, b.name) == SessionStore.Get(t.store, b.name)
  {
    var e := Opening(b, t, env);
    if e.result.Err? then Outcome(e.thread, Some(e.result.error))
    else
      var inner := RunAll(b.body, e.thread, env);
      var x := Exit(e.scope, inner.thread, b.flushFails);
      Outcome(x.thread, if x.error.Some? then x.error else BodyError(b, t, env))
  }

  /** Runs blocks one after another, stopping at the first exception: if
      any of them raises, at any depth, so does the sequence. */
  function RunAll(bs: seq<Block>, t: Thread, env: Env): (r: Outcome)
    decreases bs, 2
    ensures r.thread.created >= t.created
    ensures t.flushes <= r.thread.flushes
    ensures forall k :: k !in NamesOf(bs) ==> SessionStore.Get(r.thread.store, k) == SessionStore.Get(t.store, k)
    ensures AnyRaisesIn(bs) ==> r.error.Some?
  {
    if bs == [] then Outcome(t, None)
    else
      var first := Run(bs[0], t, env);
      if first.error.Some? then first else RunAll(bs[1..], first.thread, env)
  }

  /** Any program of nested blocks keeps every published session older
      than the session counter, so each entry creates a session distinct
      from all those already published. */
  lemma {:induction false} RunKeepsValid(b: Block, t: Thread, env: Env)
    requires Valid(t)
    ensures Valid(Run(b, t, env).thread)
    decreases b, 1
  {
    var sc := ScopeOf(b, t, env);
    ScopeLemmas.EnterExitKeepValid(sc, t, env.engines, b.flushFails);
    var e := Enter(sc, t, env.engines);
    if e.result.Ok? {
      RunAllKeepsValid(b.body, e.thread, env);
      ScopeLemmas.EnterExitKeepValid(e.scope, RunAll(b.body, e.thread, env).thread, env.engines, b.flushFails);
    }
  }

  lemma {:induction false} RunAllKeepsValid(bs: seq<Block>, t: Thread, env: Env)
    requires Valid(t)
    ensures Valid(RunAll(bs, t, env).thread)
    decreases bs, 2
  {
    if bs != [] {
      RunKeepsValid(bs[0], t, env);
      RunAllKeepsValid(bs[1..], Run(bs[0], t, env).thread, env);
    }
  }

  /** A plain block whose body raises, with an engine and a good flush:
      its session is still flushed and unpublished, the body's exception
      (or an inner block's) is the one that propagates, and if the name
      was inactive before, every name the inner blocks do not mention is
      back as it was. */
  lemma RaisingBodyStillCleansUp(b: Block, t: Thread, env: Env)
    requires !b.shared && b.raises && !b.flushFails
    requires b.name in env.engines && b.name !in NamesOf(b.body)
    ensures var r := Run(b, t, env);
      var inner := RunAll(b.body, Opening(b, t, env).thread, env).error;
      var engine := env.engines[b.name].engine;
      && r.error == (if inner.Some? then inner else Some(AppError))
      && b.name !in r.thread.store
      && r.thread.flushes[|r.thread.flushes| - 1] == Session(t.created, engine, TwoPhase.Resolve(b.twoPhase, engine.dialect))
      && (b.name !in t.store ==>
            forall k :: k !in NamesOf(b.body) ==> SessionStore.Get(r.thread.store, k) == SessionStore.Get(t.store, k))
  {
    var r := Run(b, t, env);
    if b.name !in t.store {
      forall k | k !in NamesOf(b.body)
        ensures SessionStore.Get(r.thread.store, k) == SessionStore.Get(t.store, k)
      {
        if k == b.name {
          assert b.name !in r.thread.store;
        }
      }
    }
  }

  /** An outer plain block around an inner shared block of the same name:
      both see one session, the inner exit keeps it published and the
      outer exit removes it, leaving the store as it was. */
  lemma SharedBlockInsidePlainBlock(t: Thread, env: Env, n: Name)
    requires n in env.engines && n !in t.store
    ensures var inner := Block(true, n, None, None, [], false, false);
      var outer := Block(false, n, None, None, [inner], false, false);
      var r := Run(outer, t, env);
      && r.error.None?
      && r.thread.store == t.store
      && var s := Session(t.created, env.engines[n].engine, TwoPhase.Resolve(None, env.engines[n].engine.dialect));
         r.thread.flushes == t.flushes + [s, s]
  {
    var inner := Block(true, n, None, None, [], false, false);
    var outer := Block(false, n, None, None, [inner], false, false);
    ScopeLemmas.SharedInsidePlain(t, env.engines, n, None, None, env.current);
    var e := Enter(ScopeOf(outer, t, env), t, env.engines);
    assert RunAll([inner], e.thread, env) == Run(inner, e.thread, env);
    var ie := Enter(ScopeOf(inner, e.thread, env), e.thread, env.engines);
    assert RunAll([], ie.thread, env) == Outcome(ie.thread, None);
    var ix := Exit(ie.scope, ie.thread, false);
    assert ix.error.None? && ix.thread.store == e.thread.store;
    assert Run(inner, e.thread, env) == Outcome(ix.thread, None);
    assert BodyError(outer, t, env).None?;
    assert Exit(e.scope, ix.thread, false).error.None?;
  }
}
