/** Values shared by every part of the model: the opaque collaborators
    (engines, sessions, metadata objects, transaction managers), the
    absent-or-present wrapper that stands for Python's `None`, and the
    exceptions the session-scoping code can raise. */
module Values {

  /** Python's `None`, or a present value. */
  datatype Option<+T> = None | Some(value: T)

  /** Symbolic database name, the key of every registry. */
  type Name = string

  /** A SQLAlchemy engine: an identity and the name of its dialect. */
  datatype Engine = Engine(id: nat, dialect: string)

  /** What the engine registry serves under a name: the engine server
      record with its `name` and its `engine`. */
  datatype EngineRecord = EngineRecord(name: Name, engine: Engine)

  /** A session created by a scope: a fresh identity, the engine it is
      bound to and whether it commits in two phases. */
  datatype Session = Session(id: nat, engine: Engine, twoPhase: bool)

  /** Identity of a transaction manager. */
  type TxManager = nat

  /** Identity of a schema metadata object. */
  type MetadataId = nat

  /** The exceptions the scoping code raises or lets through. */
  datatype Error =
    | KeyError(key: Name)   // `del` of a name the store does not hold
    | RuntimeError          // scope entry with no engine under the name
    | AttributeError        // scope exit before any session was made
    | FlushFailed           // the session's flush raised
    | AppError              // the body of a `with` block raised

  datatype Result<+T> = Ok(value: T) | Err(error: Error)
}
