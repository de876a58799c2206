/** Deferred metadata binding (`deferred_bind`): a process-wide table
    from engine name to the metadata objects declared for it, and the
    `bind` attribute of every metadata object. */
module MetadataBinding {
  import opened Values

  /** `metadata_base_registry`: engine name to declared metadata. */
  type Registry = map<Name, set<MetadataId>>

  /** The `bind` attribute of each metadata object; absent is `None`. */
  type Binds = map<MetadataId, Engine>

  datatype Schema = Schema(registry: Registry, binds: Binds)

  /** The metadata objects declared for `n`; none if `n` is unknown. */
  function Declared(reg: Registry, n: Name): set<MetadataId> {
    if n in reg then reg[n] else {}
  }

  /** `deferred_bind(m, n)`: records `m` under `n`, and if the engine
      registry already serves an engine under `n`, points `m.bind` at it.
      The guard in `deferred_bind` tests `m` against the table's KEYS, which are
      names, so for a metadata object it always holds: the model always
      records and always (re)binds. */
  function DeferredBind(s: Schema, engines: map<Name, EngineRecord>, m: MetadataId, n: Name): (r: Schema)
    ensures n in r.registry && m in r.registry[n]
    ensures Declared(r.registry, n) == Declared(s.registry, n) + {m}
    ensures forall k :: k != n ==> Declared(r.registry, k) == Declared(s.registry, k)
    ensures r.registry.Keys == s.registry.Keys + {n}
    ensures n in engines ==> m in r.binds && r.binds[m] == engines[n].engine
    ensures n !in engines ==> r.binds == s.binds
    ensures forall x :: x != m ==> (x in r.binds <==> x in s.binds)
    ensures forall x :: x != m && x in s.binds ==> r.binds[x] == s.binds[x]
  {
    var reg := s.registry[n := Declared(s.registry, n) + {m}];
    var binds := if n in engines then s.binds[m := engines[n].engine] else s.binds;
    Schema(reg, binds)
  }

  /** Calling `deferred_bind` twice with the same arguments and the same
      engine registry leaves the state of a single call. */
  lemma DeferredBindIdempotent(s: Schema, engines: map<Name, EngineRecord>, m: MetadataId, n: Name)
    ensures DeferredBind(DeferredBind(s, engines, m, n), engines, m, n) == DeferredBind(s, engines, m, n)
  {
    var once := DeferredBind(s, engines, m, n);
    var twice := DeferredBind(once, engines, m, n);
    assert twice.registry == once.registry;
    assert twice.binds == once.binds;
  }

  /** Declaring before the engine exists leaves `bind` untouched; declaring
      again once the engine is registered binds the metadata to it. */
  lemma DeclareThenBindLater(s: Schema, before: map<Name, EngineRecord>, rec: EngineRecord, m: MetadataId, n: Name)
    requires n !in before
    ensures DeferredBind(s, before, m, n).binds == s.binds
    ensures DeferredBind(DeferredBind(s, before, m, n), before[n := rec], m, n).binds[m] == rec.engine
  {
  }
}
