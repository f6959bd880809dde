# django-dynamic-db-router, modelled in Dafny

The library lets Django code choose, for a block or a function call, which
database alias reads and writes go to. It has two parts:

- **`DynamicDbRouter`**: the router Django consults on every query. `db_for_read` and
  `db_for_write` return the current values of two per-context cells,
  `DB_FOR_READ_OVERRIDE` and `DB_FOR_WRITE_OVERRIDE`. Both cells start as `"default"`.
  `allow_relation` always says yes. `allow_syncdb` and `allow_migrate` have no opinion.
- **`in_database`**: a context manager and decorator. Construction takes a str alias or a
  dict configuration. A dict is registered in `connections.databases` under a freshly
  generated alias. Any other value raises `ValueError`. `__enter__` snapshots both cells
  and redirects the cells selected by the `read` and `write` flags (defaults: `read=True`,
  `write=False`). `__exit__` restores the snapshot. For a generated configuration it also
  closes the connection and deletes the key. Used as a decorator, every call of the
  wrapped function runs between one enter and one exit.

The project has four modules:

- `Db` (db.dfy): the values. Aliases, configurations, the dynamically typed `database`
  argument, the two cells, and the `World` of one execution context. The `World` holds
  the cells, the registry and the log of closed connections.
- `DynamicDbRouter` (router.dfy): the five hooks, as functions of the current cells.
- `Overrides` (overrides.dfy): `in_database` as functions on `World`. `RunNested` runs
  arbitrarily deep nested `with` blocks. The lemmas state snapshot/restore, routing
  inside an override, LIFO nesting, error propagation and teardown order.
- `Runtime` (runtime.dfy): the imperative form. `Context` has the two cells and the
  registry as fields. `InDatabase` has the instance fields of `in_database`. Its
  methods update both objects in place and are proved to agree with the `Overrides`
  functions.

The str alias is not checked against the registry. The source stores it verbatim
(dynamic_db_router/router.py:44-45), and so does the model.

## Model

| member | source | states |
|---|---|---|
| DynamicDbRouter.DbForRead | dynamic_db_router/router.py:18-19 | the read alias is the current read cell, whatever model and hints are passed |
| DynamicDbRouter.DbForWrite | dynamic_db_router/router.py:21-22 | the write alias is the current write cell, whatever model and hints are passed |
| DynamicDbRouter.AllowRelation | dynamic_db_router/router.py:24-25 | relations across databases are always allowed |
| DynamicDbRouter.AllowSyncdb | dynamic_db_router/router.py:27-28 | always no opinion (None) |
| DynamicDbRouter.AllowMigrate | dynamic_db_router/router.py:30-31 | always no opinion (None) |
| Overrides.Construct | dynamic_db_router/router.py:37-54 | the flags default to read=True and write=False; fails exactly for a value that is neither str nor dict, with the ValueError message; a str becomes the target verbatim with the registry unchanged; a dict adds exactly one key, absent before, mapped to the config, becomes the target and sets createdDbConfig; no outcome touches the cells; the flags are kept |
| Overrides.DefaultFlagsRedirectReadsOnly | dynamic_db_router/router.py:37-66 | with the flags left at their defaults, an override on an alias sends reads to that alias and leaves writes where they went |
| Overrides.Enter | dynamic_db_router/router.py:56-66 | the snapshot is the pair of cells before entry; each cell becomes the target when its flag is set and keeps its prior value when it is not; the registry and close log are untouched |
| Overrides.Exit | dynamic_db_router/router.py:68-76 | both cells become exactly the snapshot; a config-owning override removes exactly its key, keeps every other entry and logs one close of that key; any other override leaves registry and log unchanged |
| Overrides.Call | dynamic_db_router/router.py:78-84 | a decorated call leaves the cells as they were before it |
| Overrides.EnterExitRestores | dynamic_db_router/router.py:56-76 | enter then exit restores both cells; for a str override it is the identity on the whole world |
| Overrides.RoutingInsideOverride | dynamic_db_router/router.py:18-66 | inside an override, db_for_read answers the target if read is set and the previous answer otherwise; likewise db_for_write |
| Overrides.CallPassesOutcomeThrough | dynamic_db_router/router.py:78-84 | a decorated call returns or raises exactly what the function does under the override's routing, and restores the cells in both cases |
| Overrides.CallRemovesGeneratedKey | dynamic_db_router/router.py:74-84 | after a call through a dict-configured override the generated key is gone and its connection was closed once |
| Overrides.NestingExample | dynamic_db_router/router.py:56-71 | outer (X, read only) around inner (Y, write only): inside, read = X and write = Y; after the inner exit, read = X and write is its value from before the outer entry; after the outer exit the world is as before |
| Overrides.RunNested | dynamic_db_router/router.py:37-76 | any nesting of with-blocks around any body leaves both cells and the registry exactly as they were, whether the body returns or raises and whether some construction raises |
| Overrides.NestedRoutesToInnermost | dynamic_db_router/router.py:56-71 | with all arguments valid, the body runs on cells holding, each, the target of the innermost block redirecting that cell or the value from before the outermost block, and its return or raise is the outcome of the whole nesting |
| Overrides.NestedInvalidRaises | dynamic_db_router/router.py:44-54 | when some block's argument is neither str nor dict, the nesting raises the ValueError and the body does not run |
| Overrides.NestedRaises | dynamic_db_router/router.py:44-84 | the nesting raises if and only if some block's argument is neither str nor dict or the body raises on the cells it sees |
| Overrides.NestedTeardownIsLifo | dynamic_db_router/router.py:74-76 | generated connections are closed innermost first, whether the body returns or raises: the close log grows by the generated aliases in reverse order of creation |
| Runtime.Context.constructor | dynamic_db_router/router.py:8-9 | a fresh context has both cells at "default" and nothing closed |
| Runtime.Context.CloseConnection | dynamic_db_router/router.py:75 | closing a registered connection logs it and changes nothing else |
| Runtime.InDatabase.New | dynamic_db_router/router.py:37-54 | with flags defaulting to read=True and write=False, the constructor changes the registry exactly as Construct does, returns ValueError with no change for other types, and yields a fresh inactive object |
| Runtime.InDatabase.Enter | dynamic_db_router/router.py:56-66 | the context and the snapshot fields become what Enter computes; returns the object itself |
| Runtime.InDatabase.Exit | dynamic_db_router/router.py:68-76 | the context becomes what Exit computes from the stored snapshot |
| Runtime.InDatabase.Call | dynamic_db_router/router.py:78-84 | result and context are those of Call; the cells are as before the call; the snapshot fields hold the cells from before the call |
| Runtime.NestedOverrides | dynamic_db_router/router.py:37-76 | the nesting example through the objects and router hooks, the outer override built with the default flags: reads to x and writes to y inside; writes back after the inner exit; the context unchanged after the outer exit |

## Left out

- Per-thread and per-task isolation of the `ContextVar` cells is not modelled. The model has one execution context, as two fields of `Context`.
- `uuid4()` is not modelled. The generated alias is a parameter `freshId`, required to be absent from the registry when it is drawn (`FreshIds` for nested blocks).
- `connections[alias].close()` is a call into Django. It is recorded only as an entry in the close log.
- `functools.wraps` metadata copying and registering the router in Django settings are framework plumbing and are not modelled.
- The dict is stored by value. Sharing with the caller's dict object (later mutation by the caller) is not modelled.
- The `read` and `write` arguments are booleans. Python truthiness of other values is not modelled.
- The arguments of `allow_relation`, `allow_syncdb` and `allow_migrate` (`*args, **kwargs` in the source) use Django's usual parameters. The hooks ignore them either way.
- The exception arguments of `__exit__` are not modelled. The source ignores them and returns None, so nothing is suppressed. `Call` propagates the function's exception unchanged.
- A decorated function (`Call`) is modelled as a pure function of the routing it sees and its arguments. In the model it opens no overrides of its own and changes nothing in the context, so the close-log entries of dict overrides opened inside it cannot be expressed. `RunNested` models nested `with` blocks: overrides opened inside a block are further blocks of the same `RunNested`, and only its innermost body is a pure function of the cells.
- Runtime.InDatabase.Enter: requires the object not to be active. Re-entering an active object in the source overwrites its snapshot, so the outer snapshot is lost.
- Runtime.InDatabase.Exit: requires an `Enter` not yet matched by an `Exit` and, for a generated configuration, the key still registered. The source behaves as follows in the excluded cases. An object never entered raises AttributeError at line 70. A str override exited twice raises nothing: it restores its stale snapshot and silently overwrites any override active at that point. A generated configuration exited twice fails at the `del` on line 76, after both cells have already been reset.
- Runtime.InDatabase.Call: requires the generated key to be registered, so a function decorated with a dict configuration is modelled for its first call only. The first exit deletes the key (`CallRemovesGeneratedKey`). In the source, a second call routes to an alias that no longer exists, and its exit fails.
