/** The values router.py works with: database aliases, connection configurations,
    the two per-context alias cells, the connection registry and the exceptions
    that can be raised. */
module Db {

  /** A database alias, the key of a connection in the registry. */
  type Alias = string

  /** The alias both cells hold until an override changes them. */
  const DefaultAlias: Alias := "default"

  /** A connection configuration as given by the caller (a dict); it is stored
      verbatim and never inspected. */
  datatype Config = Config(settings: map<string, string>)

  /** The dynamically typed `database` argument of an override: a str alias,
      a dict configuration, or any other value (which is rejected). */
  datatype DatabaseArg =
    | AliasName(alias: Alias)
    | ConfigDict(config: Config)
    | OtherValue

  /** The current values of the read and the write alias cells of one
      execution context. */
  datatype Cells = Cells(read: Alias, write: Alias)

  /** Everything an override reads or changes in one execution context:
      the alias cells, the registry of connection configurations, and the
      aliases whose connection was closed, in the order of closing. */
  datatype World = World(cells: Cells, databases: map<Alias, Config>, closed: seq<Alias>)

  /** A Django model class, as far as routing is concerned. */
  datatype ModelClass = ModelClass(appLabel: string, modelName: string)

  /** A model instance handed to `allow_relation`. */
  datatype ModelInstance = ModelInstance(model: ModelClass, pk: int)

  /** Routing hints passed as keyword arguments. */
  type Hints = map<string, string>

  datatype Exception =
    | ValueError(message: string)
    | AppError(name: string)   // whatever the application code raises

  datatype Option<T> = None | Some(value: T)

  /** How a call (a constructor included) ended: it returned a value or
      raised an exception. */
  datatype Outcome<T> = Returned(value: T) | Raised(exc: Exception)

  /** A fresh execution context over the given registry: both cells hold
      their default value and no connection has been closed. */
  function Initial(databases: map<Alias, Config>): World
  {
    World(Cells(DefaultAlias, DefaultAlias), databases, [])
  }
}
