/** The imperative side of router.py: one execution context holding the two
    alias cells and Django's connection registry, and `in_database` objects
    whose methods update both in place. Every method is proved to follow the
    value-level functions of module Overrides. */
module Runtime {
  import opened Db
  import opened DynamicDbRouter
  import opened Overrides

  /** One execution context: `DB_FOR_READ_OVERRIDE` and
      `DB_FOR_WRITE_OVERRIDE` as this context sees them, and
      `connections.databases`. `closed` records the connections closed
      through `connections[alias].close()`, in order. */
  class Context {
    var readOverride: Alias
    var writeOverride: Alias
    var databases: map<Alias, Config>
    ghost var closed: seq<Alias>

    /** A context in which neither cell has been set: both read "default". */
    constructor (databases: map<Alias, Config>)
      ensures State() == Initial(databases)
      ensures readOverride == DefaultAlias && writeOverride == DefaultAlias
    {
      readOverride := DefaultAlias;
      writeOverride := DefaultAlias;
      this.databases := databases;
      closed := [];
    }

    function Current(): Cells
      reads this
    {
      Cells(readOverride, writeOverride)
    }

    ghost function State(): World
      reads this
    {
      World(Current(), databases, closed)
    }

    /** `connections[alias].close()`: Django's connection handler; only the
        event is recorded. */
    method CloseConnection(alias: Alias)
      requires alias in databases
      modifies this
      ensures closed == old(closed) + [alias]
      ensures Current() == old(Current()) && databases == old(databases)
    {
      closed := closed + [alias];
    }
  }

  /** An `in_database` object. The fields are fixed at construction except
      the snapshot, which `Enter` writes. `active` is true between `Enter` and
      `Exit`. */
  class InDatabase {
    const read: bool
    const write: bool
    const database: Alias
    const createdDbConfig: bool
    const uniqueDbId: Alias
    var originalReadDb: Alias
    var originalWriteDb: Alias
    ghost var active: bool

    /** The generated id, when there is one, is the target. */
    predicate Valid()
    {
      createdDbConfig ==> uniqueDbId == database
    }

    function Spec(): Override
    {
      Override(database, read, write, createdDbConfig)
    }

    function Saved(): Snapshot
      reads this
    {
      Snapshot(originalReadDb, originalWriteDb)
    }

    constructor Init(database: Alias, read: bool, write: bool, createdDbConfig: bool, uniqueDbId: Alias)
      requires createdDbConfig ==> uniqueDbId == database
      ensures Valid() && !active
      ensures Spec() == Override(database, read, write, createdDbConfig)
    {
      this.read := read;
      this.write := write;
      this.database := database;
      this.createdDbConfig := createdDbConfig;
      this.uniqueDbId := uniqueDbId;
      originalReadDb, originalWriteDb := DefaultAlias, DefaultAlias;
      active := false;
    }

    /** `in_database(database, read=True, write=False)`, the constructor: registers a
        dict configuration under `freshId` (the source's `str(uuid4())`) and
        raises ValueError for a value that is neither str nor dict, before
        changing anything. */
    static method New(ctx: Context, database: DatabaseArg, freshId: Alias, read: bool := true, write: bool := false)
      returns (r: Outcome<InDatabase>)
      requires database.ConfigDict? ==> freshId !in ctx.databases
      modifies ctx
      ensures var c := Construct(old(ctx.State()), database, freshId, read, write);
        (c.Raised? ==> r == Raised(c.exc) && ctx.State() == old(ctx.State())) &&
        (c.Returned? ==>
           r.Returned? && fresh(r.value) && r.value.Valid() && !r.value.active &&
           r.value.Spec() == c.value.0 && ctx.State() == c.value.1)
    {
      if database.AliasName? {
        var o := new InDatabase.Init(database.alias, read, write, false, "");
        r := Returned(o);
      } else if database.ConfigDict? {
        ctx.databases := ctx.databases[freshId := database.config];
        var o := new InDatabase.Init(freshId, read, write, true, freshId);
        r := Returned(o);
      } else {
        r := Raised(ValueError(ValueErrorMessage));
      }
    }

    /** `__enter__`: snapshots both cells, then redirects the cells the flags
        select; returns the object itself. */
    method Enter(ctx: Context) returns (self: InDatabase)
      requires !active
      modifies this, ctx
      ensures self == this && active
      ensures (ctx.State(), Saved()) == Overrides.Enter(old(ctx.State()), Spec())
    {
      originalReadDb := ctx.readOverride;
      originalWriteDb := ctx.writeOverride;
      if read {
        ctx.readOverride := database;
      }
      if write {
        ctx.writeOverride := database;
      }
      active := true;
      self := this;
    }

    /** `__exit__`: restores both cells from the snapshot and, for a generated
        configuration, closes its connection and deletes its key. It returns
        None, so an exception in flight is not suppressed. */
    method Exit(ctx: Context)
      requires Valid() && active
      requires createdDbConfig ==> uniqueDbId in ctx.databases
      modifies this, ctx
      ensures !active && Saved() == old(Saved())
      ensures ctx.State() == Overrides.Exit(old(ctx.State()), Spec(), Saved())
    {
      ctx.readOverride := originalReadDb;
      ctx.writeOverride := originalWriteDb;
      if createdDbConfig {
        ctx.CloseConnection(uniqueDbId);
        ctx.databases := ctx.databases - {uniqueDbId};
      }
      active := false;
    }

    /** `self(querying_func)(*args)`: the decorated function runs inside one
        enter/exit pair; what it returns or raises is passed on after the
        exit. */
    method Call<A, T>(ctx: Context, f: (Cells, A) -> Outcome<T>, args: A) returns (out: Outcome<T>)
      requires Valid() && !active
      requires createdDbConfig ==> uniqueDbId in ctx.databases
      modifies this, ctx
      ensures !active
      ensures Saved() == Snapshot(old(ctx.readOverride), old(ctx.writeOverride))
      ensures (out, ctx.State()) == Overrides.Call(old(ctx.State()), Spec(), f, args)
      ensures ctx.Current() == old(ctx.Current())
    {
      var _ := Enter(ctx);
      out := f(ctx.Current(), args);
      Exit(ctx);
    }
  }

  /** A read-only override on `x` with a write-only override on `y` nested
      inside it, driven through the objects: inside both, reads route to `x`
      and writes to `y`; after the inner exit, writes route back to where they
      went before; after the outer exit, the context is as it was. */
  method NestedOverrides(ctx: Context, x: Alias, y: Alias, model: ModelClass, hints: Hints)
    returns (insideRead: Alias, insideWrite: Alias, betweenRead: Alias, betweenWrite: Alias)
    modifies ctx
    ensures insideRead == x && insideWrite == y
    ensures betweenRead == x && betweenWrite == old(ctx.writeOverride)
    ensures ctx.State() == old(ctx.State())
  {
    var r1 := InDatabase.New(ctx, AliasName(x), "");
    var outer := r1.value;
    var _ := outer.Enter(ctx);
    var r2 := InDatabase.New(ctx, AliasName(y), "", read := false, write := true);
    var inner := r2.value;
    var _ := inner.Enter(ctx);
    insideRead, insideWrite := DbForRead(ctx.Current(), model, hints), DbForWrite(ctx.Current(), model, hints);
    inner.Exit(ctx);
    betweenRead, betweenWrite := DbForRead(ctx.Current(), model, hints), DbForWrite(ctx.Current(), model, hints);
    outer.Exit(ctx);
  }
}
